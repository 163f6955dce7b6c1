/**
 The block builders (blockbuilders.cpp, blockbuilders.hpp). A setter that reads text is given what its
 decoder returned; a field of the block under construction is absent until it gets a value.
 */
module BlockBuilder {
  import opened Options
  import opened Numerals

  datatype Kind = State | Open | Change | Send | Receive

  /** Link also stands for the source or destination of the older block types. */
  datatype Field = SignatureField | WorkField | AccountField | BalanceField | LinkField | PreviousField | RepresentativeField

  datatype Error = NoError | BadAccount | BadBalance | BadLink | BadPrevious | BadRepresentative | BadSource
                 | Missing(f: Field)

  function Flag(f: Field): bv8
  {
    match f
    case SignatureField => 1
    case WorkField => 2
    case AccountField => 4
    case BalanceField => 8
    case LinkField => 16
    case PreviousField => 32
    case RepresentativeField => 64
  }

  const BASE_FIELDS: bv8 := Flag(WorkField) | Flag(SignatureField)

  function Required(kind: Kind): bv8
  {
    match kind
    case State =>
      BASE_FIELDS | Flag(AccountField) | Flag(BalanceField) | Flag(LinkField) | Flag(PreviousField)
      | Flag(RepresentativeField)
    case Open => BASE_FIELDS | Flag(AccountField) | Flag(RepresentativeField) | Flag(LinkField)
    case Change => BASE_FIELDS | Flag(PreviousField) | Flag(RepresentativeField)
    case Send => BASE_FIELDS | Flag(PreviousField) | Flag(LinkField) | Flag(BalanceField)
    case Receive => BASE_FIELDS | Flag(PreviousField) | Flag(LinkField)
  }

  /** The fields a block of this kind is made of. */
  function Fields(kind: Kind): set<Field>
  {
    match kind
    case State =>
      {SignatureField, WorkField, AccountField, BalanceField, LinkField, PreviousField, RepresentativeField}
    case Open => {SignatureField, WorkField, AccountField, LinkField, RepresentativeField}
    case Change => {SignatureField, WorkField, PreviousField, RepresentativeField}
    case Send => {SignatureField, WorkField, BalanceField, LinkField, PreviousField}
    case Receive => {SignatureField, WorkField, LinkField, PreviousField}
  }

  predicate Has(state: bv8, f: Field)
  {
    state & Flag(f) != 0
  }

  /** What a setter reports when the text for its field does not decode. */
  function BadText(kind: Kind, f: Field): Error
  {
    match f
    case BalanceField => BadBalance
    case PreviousField => BadPrevious
    case RepresentativeField => BadRepresentative
    case LinkField => if kind.State? then BadLink else if kind.Send? then BadAccount else BadSource
    case _ => BadAccount
  }

  // ---------- the first missing field ----------

  predicate Bit(num: bv8, i: nat)
    requires i < 8
  {
    (num >> i) & 1 == 1
  }

  /** The lowest set bit at or above position i, as a mask. */
  function LowestFrom(num: bv8, i: nat): int
    requires i <= 8
    decreases 8 - i
  {
    if i == 8 then -1 else if Bit(num, i) then Mask(i) else LowestFrom(num, i + 1)
  }

  function Mask(i: nat): int
    requires i < 8
  {
    Pow(2, i)
  }

  /** r is the mask of the lowest set bit of num. */
  ghost predicate IsLowest(num: bv8, r: int)
  {
    exists i :: 0 <= i < 8 && r == Mask(i) && Bit(num, i) && forall j :: 0 <= j < i ==> !Bit(num, j)
  }

  lemma NoBitIsZero(num: bv8)
    requires forall i :: 0 <= i < 8 ==> !Bit(num, i)
    ensures num == 0
  {
    assert !Bit(num, 0) && !Bit(num, 1) && !Bit(num, 2) && !Bit(num, 3);
    assert !Bit(num, 4) && !Bit(num, 5) && !Bit(num, 6) && !Bit(num, 7);
  }

  lemma ZeroHasNoBit(i: nat)
    requires i < 8
    ensures !Bit(0, i)
  {
  }

  method FfsMask(num: bv8) returns (r: int)
    ensures r == -1 <==> num == 0
    ensures num != 0 ==> IsLowest(num, r)
    ensures r == LowestFrom(num, 0)
  {
    for i := 0 to 8
      invariant LowestFrom(num, 0) == LowestFrom(num, i)
      invariant forall j :: 0 <= j < i ==> !Bit(num, j)
    {
      if Bit(num, i) {
        ZeroHasNoBit(i);
        return Mask(i);
      }
    }
    NoBitIsZero(num);
    r := -1;
  }

  /** The table of error codes; it has no entry for the top bit. */
  function ErrorOf(mask: int): Option<Error>
  {
    if mask == 1 then Some(Missing(SignatureField))
    else if mask == 2 then Some(Missing(WorkField))
    else if mask == 4 then Some(Missing(AccountField))
    else if mask == 8 then Some(Missing(BalanceField))
    else if mask == 16 then Some(Missing(LinkField))
    else if mask == 32 then Some(Missing(PreviousField))
    else if mask == 64 then Some(Missing(RepresentativeField))
    else None
  }

  /** None when the table lookup misses. */
  function CheckFieldsSet(all: bv8, state: bv8): Option<Error>
  {
    if all ^ state == 0 then Some(NoError) else ErrorOf(LowestFrom(all ^ state, 0))
  }

  method FindMissing(all: bv8, state: bv8) returns (e: Option<Error>)
    ensures e == CheckFieldsSet(all, state)
  {
    e := Some(NoError);
    var res := all ^ state;
    if res != 0 {
      var mask := FfsMask(res);
      e := ErrorOf(mask);
    }
  }

  predicate Before(f: Field, g: Field)
  {
    Flag(f) < Flag(g)
  }

  /** A bit the loop tests is the field whose flag it is. */
  lemma BitsAreFlags(x: bv8)
    ensures Bit(x, 0) <==> Has(x, SignatureField)
    ensures Bit(x, 1) <==> Has(x, WorkField)
    ensures Bit(x, 2) <==> Has(x, AccountField)
    ensures Bit(x, 3) <==> Has(x, BalanceField)
    ensures Bit(x, 4) <==> Has(x, LinkField)
    ensures Bit(x, 5) <==> Has(x, PreviousField)
    ensures Bit(x, 6) <==> Has(x, RepresentativeField)
  {
  }

  /** The field with the lowest flag in x, if there is one. */
  function FirstIn(x: bv8): Option<Field>
  {
    if Has(x, SignatureField) then Some(SignatureField)
    else if Has(x, WorkField) then Some(WorkField)
    else if Has(x, AccountField) then Some(AccountField)
    else if Has(x, BalanceField) then Some(BalanceField)
    else if Has(x, LinkField) then Some(LinkField)
    else if Has(x, PreviousField) then Some(PreviousField)
    else if Has(x, RepresentativeField) then Some(RepresentativeField)
    else None
  }

  lemma Masks()
    ensures Mask(0) == 1 && Mask(1) == 2 && Mask(2) == 4 && Mask(3) == 8
    ensures Mask(4) == 16 && Mask(5) == 32 && Mask(6) == 64 && Mask(7) == 128
  {
    assert Mask(2) == 4;
    assert Mask(4) == 4 * Mask(2);
    assert Mask(6) == 4 * Mask(4);
  }

  /** The loop finds the field with the lowest flag. */
  lemma LowestIsFirst(x: bv8)
    requires FirstIn(x).Some?
    ensures ErrorOf(LowestFrom(x, 0)) == Some(Missing(FirstIn(x).value))
  {
    BitsAreFlags(x);
    Masks();
    var l6 := LowestFrom(x, 6);
    var l5 := LowestFrom(x, 5);
    var l4 := LowestFrom(x, 4);
    var l3 := LowestFrom(x, 3);
    var l2 := LowestFrom(x, 2);
    var l1 := LowestFrom(x, 1);
    assert l6 == if Has(x, RepresentativeField) then 64 else LowestFrom(x, 7);
    assert l5 == if Has(x, PreviousField) then 32 else l6;
    assert l4 == if Has(x, LinkField) then 16 else l5;
    assert l3 == if Has(x, BalanceField) then 8 else l4;
    assert l2 == if Has(x, AccountField) then 4 else l3;
    assert l1 == if Has(x, WorkField) then 2 else l2;
  }

  /** Flags set outside what a kind requires are none. */
  predicate Within(state: bv8, all: bv8)
  {
    state & all == state && all & 128 == 0
  }

  lemma Differences(all: bv8, state: bv8, f: Field)
    requires Within(state, all)
    ensures Has(all ^ state, f) <==> Has(all, f) && !Has(state, f)
    ensures all ^ state == 0 <==> FirstIn(all ^ state).None?
  {
  }

  /** The check reports the required field with the lowest flag that is not set, and finds it in the table. */
  lemma CheckReportsFirstMissing(all: bv8, state: bv8)
    requires Within(state, all)
    ensures CheckFieldsSet(all, state).Some?
    ensures var e := CheckFieldsSet(all, state).value;
            && (e == NoError <==> forall f :: Has(all, f) ==> Has(state, f))
            && (e != NoError ==> e.Missing? && Has(all, e.f) && !Has(state, e.f)
                                 && forall g :: Before(g, e.f) && Has(all, g) ==> Has(state, g))
  {
    var x := all ^ state;
    forall f ensures Has(x, f) <==> Has(all, f) && !Has(state, f) {
      Differences(all, state, f);
    }
    Differences(all, state, WorkField);
    if x != 0 {
      LowestIsFirst(x);
    }
  }

  // ---------- the builder ----------

  type Block = map<Field, nat>

  datatype Builder = Builder(kind: Kind, block: Block, ec: Error, state: bv8)

  datatype Call =
    | Set(f: Field, v: nat)
    | SetText(f: Field, decoded: Option<nat>)
    | Zero
    | From(other: Block)

  function Fresh(kind: Kind): Builder
  {
    Builder(kind, map[], NoError, 0)
  }

  /** Calls that type-check: fields of the kind, text for any of them but work and signature, from on state blocks. */
  predicate Applies(kind: Kind, c: Call)
  {
    match c
    case Set(f, _) => f in Fields(kind)
    case SetText(f, _) => f in Fields(kind) && f != SignatureField && f != WorkField
    case Zero => true
    case From(other) => kind.State? && other.Keys == Fields(State)
  }

  function Zeros(kind: Kind): Block
  {
    map f | f in Fields(kind) :: 0
  }

  /** Only the link setters of the state builder leave the flag alone when decoding fails. */
  predicate Marks(kind: Kind, f: Field, decoded: Option<nat>)
  {
    decoded.Some? || !(kind.State? && f.LinkField?)
  }

  function Applied(b: Builder, c: Call): Builder
  {
    match c
    case Set(f, v) => b.(block := b.block[f := v], state := b.state | Flag(f))
    case SetText(f, decoded) =>
      b.(block := if decoded.Some? then b.block[f := decoded.value] else b.block,
         ec := if decoded.Some? then b.ec else BadText(b.kind, f),
         state := if Marks(b.kind, f, decoded) then b.state | Flag(f) else b.state)
    case Zero => b.(block := b.block + Zeros(b.kind), state := Required(b.kind))
    case From(other) => b.(block := b.block + other, state := b.state | Required(State))
  }

  /** What build reports; None if the table of error codes has no entry for what is missing. */
  function Report(b: Builder): Option<Error>
  {
    if b.ec == NoError then CheckFieldsSet(Required(b.kind), b.state) else Some(b.ec)
  }

  /** Only flags of fields of the kind are set. */
  predicate Sound(b: Builder)
  {
    Within(b.state, Required(b.kind))
  }

  class BlockBuilderObject {
    const kind: Kind
    var block: Block
    var ec: Error
    var buildState: bv8

    ghost function View(): Builder
      reads this
    {
      Builder(kind, block, ec, buildState)
    }

    constructor (kind: Kind)
      ensures View() == Fresh(kind)
    {
      this.kind := kind;
      block, ec, buildState := map[], NoError, 0;
    }

    method MakeBlock()
      modifies this
      ensures View() == Fresh(kind)
    {
      block, ec, buildState := map[], NoError, 0;
    }

    method SetField(f: Field, v: nat)
      requires Applies(kind, Set(f, v))
      modifies this
      ensures View() == Applied(old(View()), Set(f, v))
    {
      block := block[f := v];
      buildState := buildState | Flag(f);
    }

    method SetFieldFromText(f: Field, decoded: Option<nat>)
      requires Applies(kind, SetText(f, decoded))
      modifies this
      ensures View() == Applied(old(View()), SetText(f, decoded))
    {
      if decoded.Some? {
        block := block[f := decoded.value];
      } else {
        ec := BadText(kind, f);
      }
      if Marks(kind, f, decoded) {
        buildState := buildState | Flag(f);
      }
    }

    method ZeroFields()
      modifies this
      ensures View() == Applied(old(View()), Zero)
    {
      block := block + Zeros(kind);
      buildState := Required(kind);
    }

    /** Copies the fields one by one, setting their flags. */
    method CopyBlock(other: Block)
      requires Applies(kind, From(other))
      modifies this
      ensures View() == Applied(old(View()), From(other))
    {
      SetField(WorkField, other[WorkField]);
      SetField(SignatureField, other[SignatureField]);
      SetField(AccountField, other[AccountField]);
      SetField(BalanceField, other[BalanceField]);
      SetField(LinkField, other[LinkField]);
      SetField(PreviousField, other[PreviousField]);
      SetField(RepresentativeField, other[RepresentativeField]);
      EveryField(old(block), other);
      EveryFlag(old(buildState));
    }

    method Build() returns (built: Block, error: Error)
      requires Sound(View())
      modifies this
      ensures Report(old(View())) == Some(error) && built == old(block)
      ensures error == NoError <==> old(ec) == NoError && forall f :: Has(Required(kind), f) ==> old(Has(buildState, f))
    {
      CheckReportsFirstMissing(Required(kind), buildState);
      if ec == NoError {
        var missing := FindMissing(Required(kind), buildState);
        ec := missing.value;
      }
      error, built, block := ec, block, map[];
    }
  }

  lemma EveryFlag(state: bv8)
    ensures state | Required(State)
         == state | Flag(WorkField) | Flag(SignatureField) | Flag(AccountField) | Flag(BalanceField) | Flag(LinkField)
            | Flag(PreviousField) | Flag(RepresentativeField)
  {
  }

  lemma EveryField(block: Block, other: Block)
    requires other.Keys == Fields(State)
    ensures block + other
         == block[WorkField := other[WorkField]][SignatureField := other[SignatureField]]
            [AccountField := other[AccountField]][BalanceField := other[BalanceField]][LinkField := other[LinkField]]
            [PreviousField := other[PreviousField]][RepresentativeField := other[RepresentativeField]]
  {
    var l := block + other;
    var r := block[WorkField := other[WorkField]][SignatureField := other[SignatureField]]
             [AccountField := other[AccountField]][BalanceField := other[BalanceField]][LinkField := other[LinkField]]
             [PreviousField := other[PreviousField]][RepresentativeField := other[RepresentativeField]];
    forall f: Field ensures f in l && f in r && l[f] == r[f] {
      match f
      case SignatureField =>
      case WorkField =>
      case AccountField =>
      case BalanceField =>
      case LinkField =>
      case PreviousField =>
      case RepresentativeField =>
    }
  }

  lemma FlagsStayWithin(kind: Kind, state: bv8, f: Field)
    requires Within(state, Required(kind)) && f in Fields(kind)
    ensures Within(state | Flag(f), Required(kind))
  {
  }

  lemma AppliedStaysSound(b: Builder, c: Call)
    requires Sound(b) && Applies(b.kind, c)
    ensures Sound(Applied(b, c))
  {
    if c.Set? || c.SetText? {
      FlagsStayWithin(b.kind, b.state, c.f);
    }
  }

  // ---------- runs between make_block and build ----------

  predicate AllApply(kind: Kind, calls: seq<Call>)
  {
    forall i :: 0 <= i < |calls| ==> Applies(kind, calls[i])
  }

  function After(kind: Kind, calls: seq<Call>): (b: Builder)
    ensures b.kind == kind
  {
    if calls == [] then Fresh(kind) else Applied(After(kind, calls[..|calls| - 1]), calls[|calls| - 1])
  }

  /** What the last failing text setter reported. */
  function LastFailure(kind: Kind, calls: seq<Call>): Error
  {
    if calls == [] then NoError
    else
      var c := calls[|calls| - 1];
      if c.SetText? && c.decoded.None? then BadText(kind, c.f) else LastFailure(kind, calls[..|calls| - 1])
  }

  /** The value a call gives to f. */
  function Gives(kind: Kind, c: Call, f: Field): Option<nat>
  {
    match c
    case Set(g, v) => if f == g then Some(v) else None
    case SetText(g, decoded) => if f == g then decoded else None
    case Zero => if f in Fields(kind) then Some(0) else None
    case From(other) => if f in other then Some(other[f]) else None
  }

  function LastGiven(kind: Kind, calls: seq<Call>, f: Field): Option<nat>
  {
    if calls == [] then None
    else
      var v := Gives(kind, calls[|calls| - 1], f);
      if v.Some? then v else LastGiven(kind, calls[..|calls| - 1], f)
  }

  predicate WasGiven(kind: Kind, calls: seq<Call>, f: Field)
  {
    exists i :: 0 <= i < |calls| && Gives(kind, calls[i], f).Some?
  }

  lemma RequiredFlags(kind: Kind, f: Field)
    ensures Has(Required(kind), f) <==> f in Fields(kind)
  {
    match f
    case SignatureField =>
    case WorkField =>
    case AccountField =>
    case BalanceField =>
    case LinkField =>
    case PreviousField =>
    case RepresentativeField =>
  }

  lemma FlagAdded(state: bv8, f: Field, g: Field)
    ensures Has(state | Flag(g), f) <==> Has(state, f) || f == g
  {
  }

  lemma FlagsUnited(state: bv8, more: bv8, f: Field)
    ensures Has(state | more, f) <==> Has(state, f) || Has(more, f)
  {
  }

  /** One call: the flag of f ends up set, and the error stays away, exactly as the call gives f a value. */
  lemma AppliedFlags(b: Builder, c: Call, f: Field)
    requires Applies(b.kind, c) && !(c.SetText? && c.decoded.None?)
    ensures Has(Applied(b, c).state, f)
       <==> (Has(b.state, f) && (c.Zero? ==> f in Fields(b.kind))) || Gives(b.kind, c, f).Some?
  {
    match c
    case Set(g, _) => FlagAdded(b.state, f, g);
    case SetText(g, _) => FlagAdded(b.state, f, g);
    case Zero => RequiredFlags(b.kind, f);
    case From(_) =>
      FlagsUnited(b.state, Required(State), f);
      RequiredFlags(State, f);
  }

  lemma SoundFlags(b: Builder, f: Field)
    requires Sound(b) && Has(b.state, f)
    ensures f in Fields(b.kind)
  {
    RequiredFlags(b.kind, f);
    assert Has(Required(b.kind), f);
  }

  lemma {:induction false} AfterIsSound(kind: Kind, calls: seq<Call>)
    requires AllApply(kind, calls)
    ensures Sound(After(kind, calls)) && After(kind, calls).ec == LastFailure(kind, calls)
  {
    if calls != [] {
      AfterIsSound(kind, calls[..|calls| - 1]);
      AppliedStaysSound(After(kind, calls[..|calls| - 1]), calls[|calls| - 1]);
    } else {
      assert Within(0, Required(kind));
    }
  }

  lemma {:induction false} FlagsTellGiven(kind: Kind, calls: seq<Call>, f: Field)
    requires AllApply(kind, calls) && LastFailure(kind, calls) == NoError
    ensures Has(After(kind, calls).state, f) <==> WasGiven(kind, calls, f)
  {
    if calls != [] {
      var front, c := calls[..|calls| - 1], calls[|calls| - 1];
      var b := After(kind, front);
      FlagsTellGiven(kind, front, f);
      AfterIsSound(kind, front);
      if Has(b.state, f) {
        SoundFlags(b, f);
      }
      AppliedFlags(b, c, f);
      GivenSplit(kind, calls, f);
    }
  }

  lemma GivenSplit(kind: Kind, calls: seq<Call>, f: Field)
    requires calls != []
    ensures WasGiven(kind, calls, f)
       <==> WasGiven(kind, calls[..|calls| - 1], f) || Gives(kind, calls[|calls| - 1], f).Some?
  {
    var front := calls[..|calls| - 1];
    if i :| 0 <= i < |front| && Gives(kind, front[i], f).Some? {
      assert Gives(kind, calls[i], f).Some?;
    }
    if i :| 0 <= i < |calls| && Gives(kind, calls[i], f).Some? && i < |front| {
      assert Gives(kind, front[i], f).Some?;
    }
  }

  /**
   Whatever the setters called between make_block and build: the build reports no error exactly when no text
   failed to decode and every field of the kind was given; otherwise the last decode failure; otherwise the
   field with the lowest flag that nobody gave. The error table is never missed.
   */
  lemma BuildReports(kind: Kind, calls: seq<Call>)
    requires AllApply(kind, calls)
    ensures Report(After(kind, calls)).Some?
    ensures var e := Report(After(kind, calls)).value;
            && (e == NoError <==> LastFailure(kind, calls) == NoError
                                  && forall f :: f in Fields(kind) ==> WasGiven(kind, calls, f))
            && (LastFailure(kind, calls) != NoError ==> e == LastFailure(kind, calls))
            && (LastFailure(kind, calls) == NoError && e != NoError ==>
                && e.Missing? && e.f in Fields(kind) && !WasGiven(kind, calls, e.f)
                && forall g :: g in Fields(kind) && Before(g, e.f) ==> WasGiven(kind, calls, g))
  {
    var b := After(kind, calls);
    AfterIsSound(kind, calls);
    CheckReportsFirstMissing(Required(kind), b.state);
    forall f: Field ensures Has(Required(kind), f) <==> f in Fields(kind) {
      RequiredFlags(kind, f);
    }
    if LastFailure(kind, calls) == NoError {
      forall f ensures Has(b.state, f) <==> WasGiven(kind, calls, f) {
        FlagsTellGiven(kind, calls, f);
      }
    }
  }

  lemma AppliedGives(b: Builder, c: Call, f: Field)
    requires Applies(b.kind, c)
    ensures var x, y, v := b.block, Applied(b, c).block, Gives(b.kind, c, f);
            && (f in y <==> f in x || v.Some?)
            && (f in y ==> y[f] == if v.Some? then v.value else x[f])
  {
  }

  /** The built block holds, field by field, the last value given. */
  lemma {:induction false} BlockHoldsLastGiven(kind: Kind, calls: seq<Call>, f: Field)
    requires AllApply(kind, calls)
    ensures f in After(kind, calls).block <==> LastGiven(kind, calls, f).Some?
    ensures f in After(kind, calls).block ==> After(kind, calls).block[f] == LastGiven(kind, calls, f).value
  {
    if calls != [] {
      BlockHoldsLastGiven(kind, calls[..|calls| - 1], f);
      AppliedGives(After(kind, calls[..|calls| - 1]), calls[|calls| - 1], f);
    }
  }

  /** The flag sets as bytes; the fields come in the order of their flags. */
  lemma RequiredBytes()
    ensures Required(State) == 127 && Required(Open) == 87 && Required(Change) == 99
    ensures Required(Send) == 59 && Required(Receive) == 51
    ensures Before(SignatureField, WorkField) && Before(WorkField, AccountField) && Before(AccountField, BalanceField)
    ensures Before(BalanceField, LinkField) && Before(LinkField, PreviousField)
    ensures Before(PreviousField, RepresentativeField)
  {
  }

  /** Whatever was called before, a text that does not decode makes the build report the error of its field. */
  lemma FailureReported(kind: Kind, calls: seq<Call>, f: Field)
    requires AllApply(kind, calls) && Applies(kind, SetText(f, None))
    ensures Report(After(kind, calls + [SetText(f, None)]))
         == Some(match f
                 case BalanceField => BadBalance
                 case PreviousField => BadPrevious
                 case RepresentativeField => BadRepresentative
                 case LinkField =>
                   (match kind case State => BadLink case Send => BadAccount case _ => BadSource)
                 case _ => BadAccount)
  {
    var all := calls + [SetText(f, None)];
    assert all[..|all| - 1] == calls;
  }
}
