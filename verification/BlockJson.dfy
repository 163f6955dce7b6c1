/**
 The JSON form of blocks (blocks.cpp, serialize_json and deserialize_block_json). A property tree is a map
 from field names to texts; a missing field is an error, as in the source.
 */
module BlockJson {
  import opened Options
  import opened Numerals
  import opened FixedBytes
  import opened AccountText
  import opened Amounts
  import opened Blocks
  import BalanceText
  import BalanceForms

  /** The field names of the JSON objects. */
  datatype Field =
    | TypeName | Previous | Source | Destination | Representative | Account | Balance | Link | LinkAsAccount
    | SignatureHex | WorkHex

  type Tree = map<Field, string>

  // ---------- printing ----------

  /** The tree holds the given texts under the given names. */
  predicate Holds(tree: Tree, name: Field, text: string)
  {
    name in tree && tree[name] == text
  }

  function TailTree(signature: string, work: string): Tree
  {
    map[SignatureHex := signature, WorkHex := work]
  }

  function SendTree(previous: string, destination: string, balance: string, tail: Tree): Tree
  {
    map[TypeName := "send", Previous := previous, Destination := destination, Balance := balance] + tail
  }

  function ReceiveTree(previous: string, source: string, tail: Tree): Tree
  {
    map[TypeName := "receive", Previous := previous, Source := source] + tail
  }

  function OpenTree(source: string, representative: string, account: string, tail: Tree): Tree
  {
    map[TypeName := "open", Source := source, Representative := representative, Account := account] + tail
  }

  function ChangeTree(previous: string, representative: string, tail: Tree): Tree
  {
    map[TypeName := "change", Previous := previous, Representative := representative] + tail
  }

  function StateTree(
    account: string, previous: string, representative: string, balance: string, link: string, linkAsAccount: string,
    tail: Tree): Tree
  {
    map[TypeName := "state", Account := account, Previous := previous, Representative := representative,
        Balance := balance, Link := link, LinkAsAccount := linkAsAccount] + tail
  }

  /** serialize_json. */
  function ToJson(hash: Key -> nat, b: Block): Tree
  {
    var tail := TailTree(EncodeHex(b.signature), U64ToHex(b.work));
    match b
    case Send(previous, destination, balance, _, _) =>
      SendTree(EncodeHex(previous), ToAccount(hash, destination), EncodeHex(balance), tail)
    case Receive(previous, source, _, _) =>
      ReceiveTree(EncodeHex(previous), EncodeHex(source), tail)
    case Open(source, representative, account, _, _) =>
      OpenTree(EncodeHex(source), ToAccount(hash, representative), ToAccount(hash, account), tail)
    case Change(previous, representative, _, _) =>
      ChangeTree(EncodeHex(previous), ToAccount(hash, representative), tail)
    case State(account, previous, representative, balance, link, _, _) =>
      StateTree(ToAccount(hash, account), EncodeHex(previous), ToAccount(hash, representative),
                EncodeDec(Number(balance)), EncodeHex(link), ToAccount(hash, link), tail)
  }

  // ---------- reading ----------

  function HexField(tree: Tree, name: Field): Option<Key>
  {
    if name in tree then DecodeHexKey(tree[name]) else None
  }

  function AccountField(hash: Key -> nat, tree: Tree, name: Field): Option<Key>
  {
    if name in tree then DecodeAccount(hash, tree[name]) else None
  }

  function BalanceHexField(tree: Tree, name: Field): Option<Amount>
  {
    if name in tree then DecodeHex(16, true, tree[name]) else None
  }

  function BalanceDecField(tree: Tree, name: Field): Option<Amount>
  {
    if name in tree then
      match DecodeDec(tree[name], false)
      case None => None
      case Some(n) => Some(Fixed(256, n, 16))
    else None
  }

  /** A link is read as an account, and only if that fails as hexadecimal. */
  function LinkField(hash: Key -> nat, tree: Tree, name: Field): Option<Key>
  {
    if name in tree then
      match DecodeAccount(hash, tree[name])
      case Some(key) => Some(key)
      case None => DecodeHexKey(tree[name])
    else None
  }

  function SignatureField(tree: Tree): Option<Signature>
  {
    if SignatureHex in tree then DecodeHex(64, true, tree[SignatureHex]) else None
  }

  function WorkField(tree: Tree): Option<U64>
  {
    if WorkHex in tree then U64FromHex(tree[WorkHex]) else None
  }

  function SendOf(previous: Option<Key>, destination: Option<Key>, balance: Option<Amount>,
                  signature: Option<Signature>, work: Option<U64>): Option<Block>
  {
    if previous.None? || destination.None? || balance.None? || signature.None? || work.None? then None
    else Some(Send(previous.value, destination.value, balance.value, signature.value, work.value))
  }

  function ReceiveOf(previous: Option<Key>, source: Option<Key>,
                     signature: Option<Signature>, work: Option<U64>): Option<Block>
  {
    if previous.None? || source.None? || signature.None? || work.None? then None
    else Some(Receive(previous.value, source.value, signature.value, work.value))
  }

  function OpenOf(source: Option<Key>, representative: Option<Key>, account: Option<Key>,
                  signature: Option<Signature>, work: Option<U64>): Option<Block>
  {
    if source.None? || representative.None? || account.None? || signature.None? || work.None? then None
    else Some(Open(source.value, representative.value, account.value, signature.value, work.value))
  }

  function ChangeOf(previous: Option<Key>, representative: Option<Key>,
                    signature: Option<Signature>, work: Option<U64>): Option<Block>
  {
    if previous.None? || representative.None? || signature.None? || work.None? then None
    else Some(Change(previous.value, representative.value, signature.value, work.value))
  }

  function StateOf(account: Option<Key>, previous: Option<Key>, representative: Option<Key>, balance: Option<Amount>,
                   link: Option<Key>, signature: Option<Signature>, work: Option<U64>): Option<Block>
  {
    if account.None? || previous.None? || representative.None? || balance.None? || link.None?
       || signature.None? || work.None? then None
    else
      Some(State(account.value, previous.value, representative.value, balance.value, link.value,
                 signature.value, work.value))
  }

  /** deserialize_block_json: the constructor of the named type; any field error rejects the tree. */
  function FromJson(hash: Key -> nat, tree: Tree): Option<Block>
  {
    if TypeName !in tree then None
    else if tree[TypeName] == "receive" then
      ReceiveOf(HexField(tree, Previous), HexField(tree, Source), SignatureField(tree), WorkField(tree))
    else if tree[TypeName] == "send" then
      SendOf(HexField(tree, Previous), AccountField(hash, tree, Destination), BalanceHexField(tree, Balance),
             SignatureField(tree), WorkField(tree))
    else if tree[TypeName] == "open" then
      OpenOf(HexField(tree, Source), AccountField(hash, tree, Representative), AccountField(hash, tree, Account),
             SignatureField(tree), WorkField(tree))
    else if tree[TypeName] == "change" then
      ChangeOf(HexField(tree, Previous), AccountField(hash, tree, Representative), SignatureField(tree), WorkField(tree))
    else if tree[TypeName] == "state" then
      StateOf(AccountField(hash, tree, Account), HexField(tree, Previous), AccountField(hash, tree, Representative),
              BalanceDecField(tree, Balance), LinkField(hash, tree, Link), SignatureField(tree), WorkField(tree))
    else None
  }

  /**
   The member deserialize_json of a block of type t. Open and change blocks expect hexadecimal where their
   printer writes addresses.
   */
  function MemberFromJson(hash: Key -> nat, t: BlockType, tree: Tree): Option<Block>
  {
    match t
    case SendType =>
      SendOf(HexField(tree, Previous), AccountField(hash, tree, Destination), BalanceHexField(tree, Balance),
             SignatureField(tree), WorkField(tree))
    case ReceiveType =>
      ReceiveOf(HexField(tree, Previous), HexField(tree, Source), SignatureField(tree), WorkField(tree))
    case OpenType =>
      OpenOf(HexField(tree, Source), HexField(tree, Representative), HexField(tree, Account),
             SignatureField(tree), WorkField(tree))
    case ChangeType =>
      ChangeOf(HexField(tree, Previous), HexField(tree, Representative), SignatureField(tree), WorkField(tree))
    case StateType =>
      StateOf(AccountField(hash, tree, Account), HexField(tree, Previous), AccountField(hash, tree, Representative),
              BalanceDecField(tree, Balance), LinkField(hash, tree, Link), SignatureField(tree), WorkField(tree))
  }

  // ---------- round trips ----------

  /** No hexadecimal text is an account, so a printed link always reaches the hexadecimal reading. */
  lemma HexIsNoAccount(hash: Key -> nat, key: Key)
    ensures DecodeAccount(hash, EncodeHex(key)).None?
  {
    var t := EncodeHex(key);
    assert CharValue(t[0]) < 16;
    assert t[..4][0] == t[0] && t[..5][0] == t[0];
  }

  lemma KeyHexRoundTrip(key: Key)
    ensures DecodeHexKey(EncodeHex(key)) == Some(key)
  {
    HexRoundTrip(key, false);
  }

  lemma SignatureHexRoundTrip(s: Signature)
    ensures DecodeHex(64, true, EncodeHex(s)) == Some(s)
  {
    HexRoundTrip(s, true);
  }

  lemma AmountHexRoundTrip(a: Amount)
    ensures DecodeHex(16, true, EncodeHex(a)) == Some(a)
  {
    HexRoundTrip(a, true);
  }

  lemma AmountDecRoundTrip(a: Amount)
    ensures DecodeDec(EncodeDec(Number(a)), false) == Some(Number(a))
    ensures Fixed(256, Number(a), 16) == a
  {
    ValBound(256, a);
    BytePowers();
    BalanceText.DecodeNumeral(Number(a));
    FixedVal(256, a);
  }

  /** What the readers make of a tree that holds printed fields. */
  lemma HeldHex(tree: Tree, name: Field, key: Key)
    requires Holds(tree, name, EncodeHex(key))
    ensures HexField(tree, name) == Some(key)
  {
    KeyHexRoundTrip(key);
  }

  lemma HeldAccount(hash: Key -> nat, tree: Tree, name: Field, key: Key)
    requires Holds(tree, name, ToAccount(hash, key))
    ensures AccountField(hash, tree, name) == Some(key)
  {
    PrintedKeyDecodes(hash, key);
  }

  lemma HeldLink(hash: Key -> nat, tree: Tree, key: Key)
    requires Holds(tree, Link, EncodeHex(key))
    ensures LinkField(hash, tree, Link) == Some(key)
  {
    HexIsNoAccount(hash, key);
    KeyHexRoundTrip(key);
  }

  lemma HeldBalance(tree: Tree, balance: Amount)
    ensures Holds(tree, Balance, EncodeHex(balance)) ==> BalanceHexField(tree, Balance) == Some(balance)
    ensures Holds(tree, Balance, EncodeDec(Number(balance))) ==> BalanceDecField(tree, Balance) == Some(balance)
  {
    AmountHexRoundTrip(balance);
    AmountDecRoundTrip(balance);
  }

  lemma HeldTail(tree: Tree, signature: Signature, work: U64)
    requires Holds(tree, SignatureHex, EncodeHex(signature)) && Holds(tree, WorkHex, U64ToHex(work))
    ensures SignatureField(tree) == Some(signature) && WorkField(tree) == Some(work)
  {
    SignatureHexRoundTrip(signature);
    U64HexRoundTrip(work);
  }

  lemma SendLookup(previous: string, destination: string, balance: string, signature: string, work: string)
    ensures var tree := SendTree(previous, destination, balance, TailTree(signature, work));
            && Holds(tree, TypeName, "send") && Holds(tree, Previous, previous) && Holds(tree, Destination, destination)
            && Holds(tree, Balance, balance) && Holds(tree, SignatureHex, signature) && Holds(tree, WorkHex, work)
  {
  }

  lemma SendJson(hash: Key -> nat, b: Block, tree: Tree)
    requires b.Send? && Holds(tree, TypeName, "send")
    requires Holds(tree, Previous, EncodeHex(b.previous)) && Holds(tree, Destination, ToAccount(hash, b.destination))
    requires Holds(tree, Balance, EncodeHex(b.balance))
    requires Holds(tree, SignatureHex, EncodeHex(b.signature)) && Holds(tree, WorkHex, U64ToHex(b.work))
    ensures FromJson(hash, tree) == Some(b)
  {
    HeldTail(tree, b.signature, b.work);
    HeldHex(tree, Previous, b.previous);
    HeldAccount(hash, tree, Destination, b.destination);
    HeldBalance(tree, b.balance);
  }

  lemma ReceiveLookup(previous: string, source: string, signature: string, work: string)
    ensures var tree := ReceiveTree(previous, source, TailTree(signature, work));
            && Holds(tree, TypeName, "receive") && Holds(tree, Previous, previous) && Holds(tree, Source, source)
            && Holds(tree, SignatureHex, signature) && Holds(tree, WorkHex, work)
  {
  }

  lemma ReceiveJson(hash: Key -> nat, b: Block, tree: Tree)
    requires b.Receive? && Holds(tree, TypeName, "receive")
    requires Holds(tree, Previous, EncodeHex(b.previous)) && Holds(tree, Source, EncodeHex(b.source))
    requires Holds(tree, SignatureHex, EncodeHex(b.signature)) && Holds(tree, WorkHex, U64ToHex(b.work))
    ensures FromJson(hash, tree) == Some(b)
  {
    HeldTail(tree, b.signature, b.work);
    HeldHex(tree, Previous, b.previous);
    HeldHex(tree, Source, b.source);
  }

  lemma OpenLookup(source: string, representative: string, account: string, signature: string, work: string)
    ensures var tree := OpenTree(source, representative, account, TailTree(signature, work));
            && Holds(tree, TypeName, "open") && Holds(tree, Source, source) && Holds(tree, Representative, representative)
            && Holds(tree, Account, account) && Holds(tree, SignatureHex, signature) && Holds(tree, WorkHex, work)
  {
  }

  lemma OpenJson(hash: Key -> nat, b: Block, tree: Tree)
    requires b.Open? && Holds(tree, TypeName, "open")
    requires Holds(tree, Source, EncodeHex(b.source)) && Holds(tree, Representative, ToAccount(hash, b.representative))
    requires Holds(tree, Account, ToAccount(hash, b.account))
    requires Holds(tree, SignatureHex, EncodeHex(b.signature)) && Holds(tree, WorkHex, U64ToHex(b.work))
    ensures FromJson(hash, tree) == Some(b)
  {
    HeldTail(tree, b.signature, b.work);
    HeldHex(tree, Source, b.source);
    HeldAccount(hash, tree, Representative, b.representative);
    HeldAccount(hash, tree, Account, b.account);
  }

  lemma ChangeLookup(previous: string, representative: string, signature: string, work: string)
    ensures var tree := ChangeTree(previous, representative, TailTree(signature, work));
            && Holds(tree, TypeName, "change") && Holds(tree, Previous, previous)
            && Holds(tree, Representative, representative)
            && Holds(tree, SignatureHex, signature) && Holds(tree, WorkHex, work)
  {
  }

  lemma ChangeJson(hash: Key -> nat, b: Block, tree: Tree)
    requires b.Change? && Holds(tree, TypeName, "change")
    requires Holds(tree, Previous, EncodeHex(b.previous)) && Holds(tree, Representative, ToAccount(hash, b.representative))
    requires Holds(tree, SignatureHex, EncodeHex(b.signature)) && Holds(tree, WorkHex, U64ToHex(b.work))
    ensures FromJson(hash, tree) == Some(b)
  {
    HeldTail(tree, b.signature, b.work);
    HeldHex(tree, Previous, b.previous);
    HeldAccount(hash, tree, Representative, b.representative);
  }

  lemma StateLookup(
    account: string, previous: string, representative: string, balance: string, link: string, linkAsAccount: string,
    signature: string, work: string)
    ensures var tree := StateTree(account, previous, representative, balance, link, linkAsAccount, TailTree(signature, work));
            && Holds(tree, TypeName, "state") && Holds(tree, Account, account) && Holds(tree, Previous, previous)
            && Holds(tree, Representative, representative) && Holds(tree, Balance, balance) && Holds(tree, Link, link)
            && Holds(tree, SignatureHex, signature) && Holds(tree, WorkHex, work)
  {
  }

  lemma StateJson(hash: Key -> nat, b: Block, tree: Tree)
    requires b.State? && Holds(tree, TypeName, "state")
    requires Holds(tree, Account, ToAccount(hash, b.account)) && Holds(tree, Previous, EncodeHex(b.previous))
    requires Holds(tree, Representative, ToAccount(hash, b.representative))
    requires Holds(tree, Balance, EncodeDec(Number(b.balance))) && Holds(tree, Link, EncodeHex(b.link))
    requires Holds(tree, SignatureHex, EncodeHex(b.signature)) && Holds(tree, WorkHex, U64ToHex(b.work))
    ensures FromJson(hash, tree) == Some(b)
  {
    HeldTail(tree, b.signature, b.work);
    HeldAccount(hash, tree, Account, b.account);
    HeldAccount(hash, tree, Representative, b.representative);
    HeldHex(tree, Previous, b.previous);
    HeldLink(hash, tree, b.link);
    HeldBalance(tree, b.balance);
  }

  /** Every block of every type survives printing to JSON and reading back. */
  lemma JsonRoundTrip(hash: Key -> nat, b: Block)
    ensures FromJson(hash, ToJson(hash, b)) == Some(b)
  {
    var tree, signature, work := ToJson(hash, b), EncodeHex(b.signature), U64ToHex(b.work);
    match b
    case Send(previous, destination, balance, _, _) =>
      SendLookup(EncodeHex(previous), ToAccount(hash, destination), EncodeHex(balance), signature, work);
      SendJson(hash, b, tree);
    case Receive(previous, source, _, _) =>
      ReceiveLookup(EncodeHex(previous), EncodeHex(source), signature, work);
      ReceiveJson(hash, b, tree);
    case Open(source, representative, account, _, _) =>
      OpenLookup(EncodeHex(source), ToAccount(hash, representative), ToAccount(hash, account), signature, work);
      OpenJson(hash, b, tree);
    case Change(previous, representative, _, _) =>
      ChangeLookup(EncodeHex(previous), ToAccount(hash, representative), signature, work);
      ChangeJson(hash, b, tree);
    case State(account, previous, representative, balance, link, _, _) =>
      StateLookup(ToAccount(hash, account), EncodeHex(previous), ToAccount(hash, representative),
                  EncodeDec(Number(balance)), EncodeHex(link), ToAccount(hash, link), signature, work);
      StateJson(hash, b, tree);
  }

  lemma AddressIsNoHex(hash: Key -> nat, tree: Tree, name: Field, key: Key)
    requires Holds(tree, name, ToAccount(hash, key))
    ensures HexField(tree, name).None?
  {
  }

  /** Where the member reader reads the fields as the constructor does, it returns the same block. */
  lemma MemberAgrees(hash: Key -> nat, t: BlockType, tree: Tree, name: string)
    requires Holds(tree, TypeName, name)
    requires (t.SendType? && name == "send") || (t.ReceiveType? && name == "receive") || (t.StateType? && name == "state")
    ensures MemberFromJson(hash, t, tree) == FromJson(hash, tree)
  {
  }

  lemma MemberReadsPrinted(hash: Key -> nat, b: Block)
    requires !b.Open? && !b.Change?
    ensures MemberFromJson(hash, TypeOf(b), ToJson(hash, b)) == FromJson(hash, ToJson(hash, b))
  {
    var tree, signature, work := ToJson(hash, b), EncodeHex(b.signature), U64ToHex(b.work);
    match b
    case Send(previous, destination, balance, _, _) =>
      SendLookup(EncodeHex(previous), ToAccount(hash, destination), EncodeHex(balance), signature, work);
      MemberAgrees(hash, SendType, tree, "send");
    case Receive(previous, source, _, _) =>
      ReceiveLookup(EncodeHex(previous), EncodeHex(source), signature, work);
      MemberAgrees(hash, ReceiveType, tree, "receive");
    case State(account, previous, representative, balance, link, _, _) =>
      StateLookup(ToAccount(hash, account), EncodeHex(previous), ToAccount(hash, representative),
                  EncodeDec(Number(balance)), EncodeHex(link), ToAccount(hash, link), signature, work);
      MemberAgrees(hash, StateType, tree, "state");
  }

  lemma MemberRejectsPrinted(hash: Key -> nat, b: Block)
    requires b.Open? || b.Change?
    ensures MemberFromJson(hash, TypeOf(b), ToJson(hash, b)) == None
  {
    var tree, signature, work := ToJson(hash, b), EncodeHex(b.signature), U64ToHex(b.work);
    match b
    case Open(source, representative, account, _, _) =>
      OpenLookup(EncodeHex(source), ToAccount(hash, representative), ToAccount(hash, account), signature, work);
      AddressIsNoHex(hash, tree, Representative, representative);
    case Change(previous, representative, _, _) =>
      ChangeLookup(EncodeHex(previous), ToAccount(hash, representative), signature, work);
      AddressIsNoHex(hash, tree, Representative, representative);
  }

  /** A printed block reads back through its member reader exactly if it is no open and no change block. */
  lemma MemberReadsBackExactly(hash: Key -> nat, b: Block)
    ensures MemberFromJson(hash, TypeOf(b), ToJson(hash, b)) == if b.Open? || b.Change? then None else Some(b)
  {
    if b.Open? || b.Change? {
      MemberRejectsPrinted(hash, b);
    } else {
      MemberReadsPrinted(hash, b);
      JsonRoundTrip(hash, b);
    }
  }

  // ---------- what is printed, and what must be there ----------

  /** The texts common to all types: 128 hexadecimal digits of signature and 16 of work. */
  predicate PrintedTail(tree: Tree, b: Block)
  {
    && SignatureHex in tree && |tree[SignatureHex]| == 128 && HexTextOf(tree[SignatureHex], true, Number(b.signature))
    && WorkHex in tree && |tree[WorkHex]| == 16 && HexTextOf(tree[WorkHex], false, b.work)
  }

  /** Under this name are the 64 upper-case hexadecimal digits of the key. */
  predicate PrintedHex(tree: Tree, name: Field, key: Key)
  {
    name in tree && |tree[name]| == 64 && HexTextOf(tree[name], true, Number(key))
  }

  predicate PrintedAddress(hash: Key -> nat, tree: Tree, name: Field, key: Key)
  {
    Holds(tree, name, ToAccount(hash, key))
  }

  lemma TailIsPrinted(tree: Tree, b: Block)
    requires Holds(tree, SignatureHex, EncodeHex(b.signature)) && Holds(tree, WorkHex, U64ToHex(b.work))
    ensures PrintedTail(tree, b)
  {
    HexPrinted(b.signature);
    U64HexPrinted(b.work);
  }

  lemma HexIsPrinted(tree: Tree, name: Field, key: Key)
    requires Holds(tree, name, EncodeHex(key))
    ensures PrintedHex(tree, name, key)
  {
    HexPrinted(key);
  }

  /** A send block: previous in hexadecimal, destination as an address, balance as 32 hexadecimal digits. */
  lemma SendPrinted(hash: Key -> nat, b: Block)
    requires b.Send?
    ensures var tree := ToJson(hash, b);
            && tree.Keys == {TypeName, Previous, Destination, Balance, SignatureHex, WorkHex} && tree[TypeName] == "send"
            && PrintedHex(tree, Previous, b.previous) && PrintedAddress(hash, tree, Destination, b.destination)
            && |tree[Balance]| == 32 && HexTextOf(tree[Balance], true, Number(b.balance)) && PrintedTail(tree, b)
  {
    SendLookup(EncodeHex(b.previous), ToAccount(hash, b.destination), EncodeHex(b.balance), EncodeHex(b.signature),
               U64ToHex(b.work));
    var tree := ToJson(hash, b);
    HexIsPrinted(tree, Previous, b.previous);
    HexPrinted(b.balance);
    TailIsPrinted(tree, b);
  }

  lemma ReceivePrinted(hash: Key -> nat, b: Block)
    requires b.Receive?
    ensures var tree := ToJson(hash, b);
            && tree.Keys == {TypeName, Previous, Source, SignatureHex, WorkHex} && tree[TypeName] == "receive"
            && PrintedHex(tree, Previous, b.previous) && PrintedHex(tree, Source, b.source) && PrintedTail(tree, b)
  {
    ReceiveLookup(EncodeHex(b.previous), EncodeHex(b.source), EncodeHex(b.signature), U64ToHex(b.work));
    var tree := ToJson(hash, b);
    HexIsPrinted(tree, Previous, b.previous);
    HexIsPrinted(tree, Source, b.source);
    TailIsPrinted(tree, b);
  }

  lemma OpenPrinted(hash: Key -> nat, b: Block)
    requires b.Open?
    ensures var tree := ToJson(hash, b);
            && tree.Keys == {TypeName, Source, Representative, Account, SignatureHex, WorkHex} && tree[TypeName] == "open"
            && PrintedHex(tree, Source, b.source) && PrintedAddress(hash, tree, Representative, b.representative)
            && PrintedAddress(hash, tree, Account, b.account) && PrintedTail(tree, b)
  {
    OpenLookup(EncodeHex(b.source), ToAccount(hash, b.representative), ToAccount(hash, b.account),
               EncodeHex(b.signature), U64ToHex(b.work));
    var tree := ToJson(hash, b);
    HexIsPrinted(tree, Source, b.source);
    TailIsPrinted(tree, b);
  }

  lemma ChangePrinted(hash: Key -> nat, b: Block)
    requires b.Change?
    ensures var tree := ToJson(hash, b);
            && tree.Keys == {TypeName, Previous, Representative, SignatureHex, WorkHex} && tree[TypeName] == "change"
            && PrintedHex(tree, Previous, b.previous) && PrintedAddress(hash, tree, Representative, b.representative)
            && PrintedTail(tree, b)
  {
    ChangeLookup(EncodeHex(b.previous), ToAccount(hash, b.representative), EncodeHex(b.signature), U64ToHex(b.work));
    var tree := ToJson(hash, b);
    HexIsPrinted(tree, Previous, b.previous);
    TailIsPrinted(tree, b);
  }

  /** A state block: balance in decimal, and the link both in hexadecimal and as an address. */
  lemma StatePrinted(hash: Key -> nat, b: Block)
    requires b.State?
    ensures var tree := ToJson(hash, b);
            && tree.Keys == {TypeName, Account, Previous, Representative, Balance, Link, LinkAsAccount, SignatureHex, WorkHex}
            && tree[TypeName] == "state"
            && PrintedAddress(hash, tree, Account, b.account) && PrintedHex(tree, Previous, b.previous)
            && PrintedAddress(hash, tree, Representative, b.representative)
            && ReadNumber(10, tree[Balance]) == Some(Number(b.balance))
            && PrintedHex(tree, Link, b.link) && PrintedAddress(hash, tree, LinkAsAccount, b.link) && PrintedTail(tree, b)
  {
    StateLookup(ToAccount(hash, b.account), EncodeHex(b.previous), ToAccount(hash, b.representative),
                EncodeDec(Number(b.balance)), EncodeHex(b.link), ToAccount(hash, b.link), EncodeHex(b.signature),
                U64ToHex(b.work));
    var tree := ToJson(hash, b);
    HexIsPrinted(tree, Previous, b.previous);
    HexIsPrinted(tree, Link, b.link);
    BalanceForms.DecPrinted(Number(b.balance));
    TailIsPrinted(tree, b);
  }

  /** The names without which no block of a type is read. */
  function NeededNames(t: BlockType): set<Field>
  {
    match t
    case SendType => {TypeName, Previous, Destination, Balance, SignatureHex, WorkHex}
    case ReceiveType => {TypeName, Previous, Source, SignatureHex, WorkHex}
    case OpenType => {TypeName, Source, Representative, Account, SignatureHex, WorkHex}
    case ChangeType => {TypeName, Previous, Representative, SignatureHex, WorkHex}
    case StateType => {TypeName, Account, Previous, Representative, Balance, Link, SignatureHex, WorkHex}
  }

  function TypeText(t: BlockType): string
  {
    match t
    case SendType => "send"
    case ReceiveType => "receive"
    case OpenType => "open"
    case ChangeType => "change"
    case StateType => "state"
  }

  /** The text under each name decodes to the field of the block, in the form its type uses. */
  predicate FieldsRead(hash: Key -> nat, tree: Tree, b: Block)
    requires NeededNames(TypeOf(b)) <= tree.Keys
  {
    && DecodeHex(64, true, tree[SignatureHex]) == Some(b.signature) && U64FromHex(tree[WorkHex]) == Some(b.work)
    && match b
       case Send(previous, destination, balance, _, _) =>
         && DecodeHexKey(tree[Previous]) == Some(previous) && DecodeAccount(hash, tree[Destination]) == Some(destination)
         && DecodeHex(16, true, tree[Balance]) == Some(balance)
       case Receive(previous, source, _, _) =>
         DecodeHexKey(tree[Previous]) == Some(previous) && DecodeHexKey(tree[Source]) == Some(source)
       case Open(source, representative, account, _, _) =>
         && DecodeHexKey(tree[Source]) == Some(source) && DecodeAccount(hash, tree[Representative]) == Some(representative)
         && DecodeAccount(hash, tree[Account]) == Some(account)
       case Change(previous, representative, _, _) =>
         && DecodeHexKey(tree[Previous]) == Some(previous)
         && DecodeAccount(hash, tree[Representative]) == Some(representative)
       case State(account, previous, representative, balance, link, _, _) =>
         && DecodeAccount(hash, tree[Account]) == Some(account) && DecodeHexKey(tree[Previous]) == Some(previous)
         && DecodeAccount(hash, tree[Representative]) == Some(representative)
         && DecodeDec(tree[Balance], false) == Some(Number(balance))
         && LinkField(hash, tree, Link) == Some(link)
  }

  lemma AmountOfNumber(n: nat, a: Amount)
    requires n < TWO_128
    ensures Fixed(256, n, 16) == a <==> n == Number(a)
  {
    BytePowers();
    ValFixed(256, n, 16);
    FixedVal(256, a);
  }

  lemma NamedType(hash: Key -> nat, tree: Tree, b: Block)
    requires FromJson(hash, tree) == Some(b)
    ensures Holds(tree, TypeName, TypeText(TypeOf(b)))
  {
  }

  lemma SendReadsExactly(hash: Key -> nat, tree: Tree, b: Block)
    requires b.Send? && Holds(tree, TypeName, "send")
    ensures FromJson(hash, tree) == Some(b) <==> NeededNames(SendType) <= tree.Keys && FieldsRead(hash, tree, b)
  {
  }

  lemma ReceiveReadsExactly(hash: Key -> nat, tree: Tree, b: Block)
    requires b.Receive? && Holds(tree, TypeName, "receive")
    ensures FromJson(hash, tree) == Some(b) <==> NeededNames(ReceiveType) <= tree.Keys && FieldsRead(hash, tree, b)
  {
  }

  lemma OpenReadsExactly(hash: Key -> nat, tree: Tree, b: Block)
    requires b.Open? && Holds(tree, TypeName, "open")
    ensures FromJson(hash, tree) == Some(b) <==> NeededNames(OpenType) <= tree.Keys && FieldsRead(hash, tree, b)
  {
  }

  lemma ChangeReadsExactly(hash: Key -> nat, tree: Tree, b: Block)
    requires b.Change? && Holds(tree, TypeName, "change")
    ensures FromJson(hash, tree) == Some(b) <==> NeededNames(ChangeType) <= tree.Keys && FieldsRead(hash, tree, b)
  {
  }

  lemma StateReadsExactly(hash: Key -> nat, tree: Tree, b: Block)
    requires b.State? && Holds(tree, TypeName, "state")
    ensures FromJson(hash, tree) == Some(b) <==> NeededNames(StateType) <= tree.Keys && FieldsRead(hash, tree, b)
  {
    if Balance in tree && DecodeDec(tree[Balance], false).Some? {
      AmountOfNumber(DecodeDec(tree[Balance], false).value, b.balance);
    }
  }

  /** A tree reads as a block exactly if it names the type, has every name needed, and every text decodes. */
  lemma JsonReadsExactly(hash: Key -> nat, tree: Tree, b: Block)
    ensures FromJson(hash, tree) == Some(b)
       <==> && NeededNames(TypeOf(b)) <= tree.Keys && tree[TypeName] == TypeText(TypeOf(b))
            && FieldsRead(hash, tree, b)
  {
    if FromJson(hash, tree) == Some(b) {
      NamedType(hash, tree, b);
    }
    if Holds(tree, TypeName, TypeText(TypeOf(b))) {
      match b
      case Send(_, _, _, _, _) => SendReadsExactly(hash, tree, b);
      case Receive(_, _, _, _) => ReceiveReadsExactly(hash, tree, b);
      case Open(_, _, _, _, _) => OpenReadsExactly(hash, tree, b);
      case Change(_, _, _, _) => ChangeReadsExactly(hash, tree, b);
      case State(_, _, _, _, _, _, _) => StateReadsExactly(hash, tree, b);
    }
  }

  lemma LinkReadsAddress(hash: Key -> nat, tree: Tree, key: Key)
    requires Holds(tree, Link, ToAccount(hash, key))
    ensures LinkField(hash, tree, Link) == Some(key)
  {
    PrintedKeyDecodes(hash, key);
  }

  /** A state block written with its link as an address reads as the same block. */
  lemma AddressLinkReadsBack(hash: Key -> nat, b: Block)
    requires b.State?
    ensures FromJson(hash, ToJson(hash, b)[Link := ToAccount(hash, b.link)]) == Some(b)
  {
    var tree := ToJson(hash, b);
    var tree' := tree[Link := ToAccount(hash, b.link)];
    JsonRoundTrip(hash, b);
    StatePrinted(hash, b);
    LinkReadsAddress(hash, tree', b.link);
    HeldLinkOf(hash, b);
    SameButLink(hash, tree, tree');
  }

  lemma HeldLinkOf(hash: Key -> nat, b: Block)
    requires b.State?
    ensures Holds(ToJson(hash, b), Link, EncodeHex(b.link))
    ensures LinkField(hash, ToJson(hash, b), Link) == Some(b.link)
  {
    StateLookup(ToAccount(hash, b.account), EncodeHex(b.previous), ToAccount(hash, b.representative),
                EncodeDec(Number(b.balance)), EncodeHex(b.link), ToAccount(hash, b.link), EncodeHex(b.signature),
                U64ToHex(b.work));
    HeldLink(hash, ToJson(hash, b), b.link);
  }

  lemma SameButLink(hash: Key -> nat, tree: Tree, tree': Tree)
    requires Holds(tree, TypeName, "state") && tree'.Keys == tree.Keys
    requires forall f :: f in tree && f != Link ==> tree'[f] == tree[f]
    requires LinkField(hash, tree', Link) == LinkField(hash, tree, Link)
    ensures FromJson(hash, tree') == FromJson(hash, tree)
  {
  }
}
