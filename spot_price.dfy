/** The spot-price negotiation protocol's wire types (`swap/src/network/spot_price.rs`)
    and their `serde` encoding: derived `Serialize`/`Deserialize` use the externally
    tagged representation, so a unit variant is a bare string, a newtype variant a
    one-member object holding its content, and a struct variant a one-member object
    holding the struct's fields. Amounts are integer counts of the smallest unit. */
module SpotPrice {
  import opened Base
  import opened Json
  import Chains

  /** The protocol identifier advertised to peers. */
  const Protocol: string := "/comit/xmr/btc/spot-price/1.0.0"

  datatype BitcoinNetwork = Mainnet | Testnet | Signet | Regtest

  datatype MoneroNetwork = Mainnet | Stagenet | Testnet

  /** The pair of networks a party declares it is on. */
  datatype BlockchainNetwork = BlockchainNetwork(bitcoin: BitcoinNetwork, monero: MoneroNetwork)

  /** What the initiator asks for: `btc` satoshi, and the networks it is on. */
  datatype Request = Request(btc: u64, blockchainNetwork: BlockchainNetwork)

  /** The quote, in piconero, or the reason for refusing. */
  datatype Response = Xmr(piconero: u64) | Error(error: Error)

  /** The closed set of refusal reasons; amounts are in satoshi. */
  datatype Error =
    | NoSwapsAccepted
    | AmountBelowMinimum(min: u64, buy: u64)
    | AmountAboveMaximum(max: u64, buy: u64)
    | BalanceTooLow(buy: u64)
    | BlockchainNetworkMismatch(cli: BlockchainNetwork, asb: BlockchainNetwork)
    | Other

  /** Derived `PartialEq` on `BlockchainNetwork`: both components must agree. */
  function NetworksEqual(a: BlockchainNetwork, b: BlockchainNetwork): (r: bool)
    ensures r <==> a.bitcoin == b.bitcoin && a.monero == b.monero
  {
    a == b
  }

  /** `From<bitcoin::Network> for BitcoinNetwork`. */
  function FromBitcoinLib(n: Chains.BitcoinLibNetwork): (r: BitcoinNetwork)
    ensures ToBitcoinLib(r) == n
  {
    match n
    case Bitcoin => BitcoinNetwork.Mainnet
    case Testnet => BitcoinNetwork.Testnet
    case Signet => BitcoinNetwork.Signet
    case Regtest => BitcoinNetwork.Regtest
  }

  /** `From<monero::Network> for MoneroNetwork`. */
  function FromMoneroLib(n: Chains.MoneroLibNetwork): (r: MoneroNetwork)
    ensures ToMoneroLib(r) == n
  {
    match n
    case Mainnet => MoneroNetwork.Mainnet
    case Stagenet => MoneroNetwork.Stagenet
    case Testnet => MoneroNetwork.Testnet
  }

  /** The library network each wire network stands for: the inverse of the
      conversions, which shows that both are one-to-one and onto. */
  function ToBitcoinLib(t: BitcoinNetwork): Chains.BitcoinLibNetwork {
    match t
    case Mainnet => Chains.Bitcoin
    case Testnet => Chains.BitcoinLibNetwork.Testnet
    case Signet => Chains.Signet
    case Regtest => Chains.Regtest
  }

  function ToMoneroLib(t: MoneroNetwork): Chains.MoneroLibNetwork {
    match t
    case Mainnet => Chains.Mainnet
    case Stagenet => Chains.Stagenet
    case Testnet => Chains.MoneroLibNetwork.Testnet
  }

  /** Both conversions are total, one-to-one and onto: four bitcoin networks map to
      four distinct wire networks, three monero networks to three. */
  lemma ConversionsBijective()
    ensures forall n :: ToBitcoinLib(FromBitcoinLib(n)) == n
    ensures forall t :: FromBitcoinLib(ToBitcoinLib(t)) == t
    ensures forall n :: ToMoneroLib(FromMoneroLib(n)) == n
    ensures forall t :: FromMoneroLib(ToMoneroLib(t)) == t
    ensures forall a, b :: FromBitcoinLib(a) == FromBitcoinLib(b) ==> a == b
    ensures forall a, b :: FromMoneroLib(a) == FromMoneroLib(b) ==> a == b
  {
  }

  // ---------------------------------------------------------------------------
  // Serialize

  function BitcoinNetworkName(n: BitcoinNetwork): string {
    match n
    case Mainnet => "Mainnet"
    case Testnet => "Testnet"
    case Signet => "Signet"
    case Regtest => "Regtest"
  }

  function MoneroNetworkName(n: MoneroNetwork): string {
    match n
    case Mainnet => "Mainnet"
    case Stagenet => "Stagenet"
    case Testnet => "Testnet"
  }

  /** A declared pair as a struct object; decoding it gives the pair back. */
  function EncodeNetwork(n: BlockchainNetwork): (j: Json)
    ensures DecodeNetwork(j) == Success(n)
  {
    var b, m := Str(BitcoinNetworkName(n.bitcoin)), Str(MoneroNetworkName(n.monero));
    Struct2RoundTrip("bitcoin", DecodeBitcoinNetwork, b, n.bitcoin, "monero", DecodeMoneroNetwork, m, n.monero);
    Obj([("bitcoin", b), ("monero", m)])
  }

  /** A request as a struct object; decoding it gives the request back. */
  function EncodeRequest(q: Request): (j: Json)
    ensures DecodeRequest(j) == Success(q)
  {
    var n := EncodeNetwork(q.blockchainNetwork);
    Struct2RoundTrip("btc", DecodeU64, Int(q.btc), q.btc, "blockchain_network", DecodeNetwork, n, q.blockchainNetwork);
    Obj([("btc", Int(q.btc)), ("blockchain_network", n)])
  }

  /** A refusal reason, externally tagged: the tag is the variant's name, with no
      content for a unit variant and the fields as content otherwise. */
  function EncodeError(e: Error): (j: Json)
    ensures VariantOf(j).Success? && VariantOf(j).value.0 == ErrorName(e)
    ensures VariantOf(j).value.1.None? <==> e.NoSwapsAccepted? || e.Other?
  {
    match e
    case NoSwapsAccepted => Str("NoSwapsAccepted")
    case AmountBelowMinimum(min, buy) =>
      Obj([("AmountBelowMinimum", Obj([("min", Int(min)), ("buy", Int(buy))]))])
    case AmountAboveMaximum(max, buy) =>
      Obj([("AmountAboveMaximum", Obj([("max", Int(max)), ("buy", Int(buy))]))])
    case BalanceTooLow(buy) =>
      Obj([("BalanceTooLow", Obj([("buy", Int(buy))]))])
    case BlockchainNetworkMismatch(cli, asb) =>
      Obj([("BlockchainNetworkMismatch", Obj([("cli", EncodeNetwork(cli)), ("asb", EncodeNetwork(asb))]))])
    case Other => Str("Other")
  }

  /** A response, externally tagged: the tag is the variant's name, and both
      variants, being newtype variants, carry content. */
  function EncodeResponse(r: Response): (j: Json)
    ensures VariantOf(j).Success? && VariantOf(j).value.0 == ResponseName(r)
    ensures VariantOf(j).value.1.Some?
  {
    match r
    case Xmr(piconero) => Obj([("Xmr", Int(piconero))])
    case Error(e) => Obj([("Error", EncodeError(e))])
  }

  // ---------------------------------------------------------------------------
  // Deserialize

  /** Why a JSON value is not the encoding of the expected type. */
  datatype SerdeError =
    | InvalidType            // a JSON value of the wrong kind (also an enum object without exactly one member)
    | InvalidValue           // an integer outside the range of `u64`
    | InvalidLength(n: nat)  // a struct given as an array with the wrong number of elements
    | UnknownVariant(name: string)
    | MissingField(name: string)
    | DuplicateField(name: string)

  function DecodeU64(j: Json): (r: Result<u64, SerdeError>)
    ensures r.Success? <==> j.Int? && 0 <= j.i < 0x1_0000_0000_0000_0000
    ensures r.Success? ==> r.value == j.i
  {
    match j
    case Int(i) => if 0 <= i < 0x1_0000_0000_0000_0000 then Success(i) else Failure(InvalidValue)
    case _ => Failure(InvalidType)
  }

  /** An externally tagged enum value: a bare string names a variant without
      content; an object with exactly one member names the variant and holds its
      content. */
  function VariantOf(j: Json): (r: Result<(string, Option<Json>), SerdeError>)
    ensures r.Success? <==> j.Str? || (j.Obj? && |j.members| == 1)
    ensures j.Str? ==> r == Success((j.s, None))
    ensures j.Obj? && |j.members| == 1 ==> r == Success((j.members[0].0, Some(j.members[0].1)))
  {
    match j
    case Str(s) => Success((s, None))
    case Obj(ms) => if |ms| == 1 then Success((ms[0].0, Some(ms[0].1))) else Failure(InvalidType)
    case _ => Failure(InvalidType)
  }

  /** The content of a unit variant: absent, or (in the object form) `null`. */
  function UnitContent(c: Option<Json>): (r: Result<(), SerdeError>)
    ensures r.Success? <==> c == None || c == Some(Null)
  {
    if c == None || c == Some(Null) then Success(()) else Failure(InvalidType)
  }

  /** The content of a newtype or struct variant, which must be present. */
  function Content(c: Option<Json>): (r: Result<Json, SerdeError>)
    ensures r.Success? <==> c.Some?
    ensures r.Success? ==> r.value == c.value
  {
    if c.Some? then Success(c.value) else Failure(InvalidType)
  }

  const BitcoinNetworkNames: set<string> := {"Mainnet", "Testnet", "Signet", "Regtest"}

  const MoneroNetworkNames: set<string> := {"Mainnet", "Stagenet", "Testnet"}

  /** The derived `Deserialize` of `BitcoinNetwork`: a unit variant named by its tag. */
  function DecodeBitcoinNetwork(j: Json): (r: Result<BitcoinNetwork, SerdeError>)
    ensures VariantOf(j).Failure? ==> r == Failure(InvalidType)
    ensures r.Success? ==> VariantOf(j).Success? && VariantOf(j).value.0 == BitcoinNetworkName(r.value)
    ensures VariantOf(j).Success? && VariantOf(j).value.0 !in BitcoinNetworkNames ==>
              r == Failure(UnknownVariant(VariantOf(j).value.0))
  {
    var (name, content) :- VariantOf(j);
    if name == "Mainnet" then var _ :- UnitContent(content); Success(BitcoinNetwork.Mainnet)
    else if name == "Testnet" then var _ :- UnitContent(content); Success(BitcoinNetwork.Testnet)
    else if name == "Signet" then var _ :- UnitContent(content); Success(BitcoinNetwork.Signet)
    else if name == "Regtest" then var _ :- UnitContent(content); Success(BitcoinNetwork.Regtest)
    else Failure(UnknownVariant(name))
  }

  /** The derived `Deserialize` of `MoneroNetwork`: a unit variant named by its tag. */
  function DecodeMoneroNetwork(j: Json): (r: Result<MoneroNetwork, SerdeError>)
    ensures VariantOf(j).Failure? ==> r == Failure(InvalidType)
    ensures r.Success? ==> VariantOf(j).Success? && VariantOf(j).value.0 == MoneroNetworkName(r.value)
    ensures VariantOf(j).Success? && VariantOf(j).value.0 !in MoneroNetworkNames ==>
              r == Failure(UnknownVariant(VariantOf(j).value.0))
  {
    var (name, content) :- VariantOf(j);
    if name == "Mainnet" then var _ :- UnitContent(content); Success(MoneroNetwork.Mainnet)
    else if name == "Stagenet" then var _ :- UnitContent(content); Success(MoneroNetwork.Stagenet)
    else if name == "Testnet" then var _ :- UnitContent(content); Success(MoneroNetwork.Testnet)
    else Failure(UnknownVariant(name))
  }

  /** The members of a one-field struct, visited in order as the derived visitor
      does: the known key is decoded on sight, a second occurrence is an error,
      unknown keys are skipped. */
  function Gather1<A>(ms: seq<(string, Json)>, na: string, da: Json -> Result<A, SerdeError>,
                      sa: Option<A>): Result<Option<A>, SerdeError>
    decreases |ms|
  {
    if ms == [] then Success(sa)
    else if ms[0].0 == na then
      if sa.Some? then Failure(DuplicateField(na))
      else var a :- da(ms[0].1); Gather1(ms[1..], na, da, Some(a))
    else Gather1(ms[1..], na, da, sa)
  }

  /** Without a member named `na`, the slot stays as it was. */
  lemma {:induction false} Gather1Absent<A>(ms: seq<(string, Json)>, na: string, da: Json -> Result<A, SerdeError>,
                                            sa: Option<A>)
    ensures (forall k | 0 <= k < |ms| :: ms[k].0 != na) ==> Gather1(ms, na, da, sa) == Success(sa)
    decreases |ms|
  {
    if ms != [] && ms[0].0 != na {
      assert forall k | 0 <= k < |ms[1..]| :: ms[1..][k].0 == ms[k + 1].0;
      Gather1Absent(ms[1..], na, da, sa);
    }
  }

  /** The same for a two-field struct. */
  function Gather2<A, B>(ms: seq<(string, Json)>,
                         na: string, da: Json -> Result<A, SerdeError>,
                         nb: string, db: Json -> Result<B, SerdeError>,
                         sa: Option<A>, sb: Option<B>): Result<(Option<A>, Option<B>), SerdeError>
    decreases |ms|
  {
    if ms == [] then Success((sa, sb))
    else if ms[0].0 == na then
      if sa.Some? then Failure(DuplicateField(na))
      else var a :- da(ms[0].1); Gather2(ms[1..], na, da, nb, db, Some(a), sb)
    else if ms[0].0 == nb then
      if sb.Some? then Failure(DuplicateField(nb))
      else var b :- db(ms[0].1); Gather2(ms[1..], na, da, nb, db, sa, Some(b))
    else Gather2(ms[1..], na, da, nb, db, sa, sb)
  }

  /** Without a member named `na`, the first slot stays as it was; without one
      named `nb`, the second does. */
  lemma {:induction false} Gather2Absent<A, B>(ms: seq<(string, Json)>,
                                               na: string, da: Json -> Result<A, SerdeError>,
                                               nb: string, db: Json -> Result<B, SerdeError>,
                                               sa: Option<A>, sb: Option<B>)
    ensures var g := Gather2(ms, na, da, nb, db, sa, sb);
      && ((forall k | 0 <= k < |ms| :: ms[k].0 != na) && g.Success? ==> g.value.0 == sa)
      && ((forall k | 0 <= k < |ms| :: ms[k].0 != nb) && g.Success? ==> g.value.1 == sb)
    decreases |ms|
  {
    if ms != [] {
      assert forall k | 0 <= k < |ms[1..]| :: ms[1..][k].0 == ms[k + 1].0;
      if ms[0].0 == na {
        if sa.None? && da(ms[0].1).Success? {
          Gather2Absent(ms[1..], na, da, nb, db, Some(da(ms[0].1).value), sb);
        }
      } else if ms[0].0 == nb {
        if sb.None? && db(ms[0].1).Success? {
          Gather2Absent(ms[1..], na, da, nb, db, sa, Some(db(ms[0].1).value));
        }
      } else {
        Gather2Absent(ms[1..], na, da, nb, db, sa, sb);
      }
    }
  }

  /** A derived one-field struct: from an object by field name, or from an array
      holding exactly the field. Anything else is the wrong type, an array of
      another length the wrong length, and an object without the field misses it. */
  function DecodeStruct1<A>(j: Json, na: string, da: Json -> Result<A, SerdeError>): (r: Result<A, SerdeError>)
    ensures !j.Obj? && !j.Arr? ==> r == Failure(InvalidType)
    ensures j.Arr? && |j.elems| != 1 ==> r == Failure(InvalidLength(|j.elems|))
    ensures j.Obj? && (forall k | 0 <= k < |j.members| :: j.members[k].0 != na) ==> r == Failure(MissingField(na))
  {
    match j
    case Obj(ms) =>
      Gather1Absent(ms, na, da, None);
      var sa :- Gather1(ms, na, da, None);
      if sa.None? then Failure(MissingField(na)) else Success(sa.value)
    case Arr(es) =>
      if |es| != 1 then Failure(InvalidLength(|es|)) else da(es[0])
    case _ => Failure(InvalidType)
  }

  /** A derived two-field struct: from an object by field names, or from an array
      holding exactly the two fields in declaration order. An object that lacks
      either field is rejected. */
  function DecodeStruct2<A, B>(j: Json, na: string, da: Json -> Result<A, SerdeError>,
                               nb: string, db: Json -> Result<B, SerdeError>): (r: Result<(A, B), SerdeError>)
    ensures !j.Obj? && !j.Arr? ==> r == Failure(InvalidType)
    ensures j.Arr? && |j.elems| != 2 ==> r == Failure(InvalidLength(|j.elems|))
    ensures j.Obj? && (forall k | 0 <= k < |j.members| :: j.members[k].0 != na) ==> r.Failure?
    ensures j.Obj? && (forall k | 0 <= k < |j.members| :: j.members[k].0 != nb) ==> r.Failure?
  {
    match j
    case Obj(ms) =>
      Gather2Absent(ms, na, da, nb, db, None, None);
      var slots :- Gather2(ms, na, da, nb, db, None, None);
      if slots.0.None? then Failure(MissingField(na))
      else if slots.1.None? then Failure(MissingField(nb))
      else Success((slots.0.value, slots.1.value))
    case Arr(es) =>
      if |es| != 2 then Failure(InvalidLength(|es|))
      else var a :- da(es[0]); var b :- db(es[1]); Success((a, b))
    case _ => Failure(InvalidType)
  }

  /** A declared pair must be a struct holding both networks. */
  function DecodeNetwork(j: Json): (r: Result<BlockchainNetwork, SerdeError>)
    ensures !j.Obj? && !j.Arr? ==> r == Failure(InvalidType)
    ensures j.Obj? && (forall k | 0 <= k < |j.members| :: j.members[k].0 != "bitcoin") ==> r.Failure?
    ensures j.Obj? && (forall k | 0 <= k < |j.members| :: j.members[k].0 != "monero") ==> r.Failure?
  {
    var (b, m) :- DecodeStruct2(j, "bitcoin", DecodeBitcoinNetwork, "monero", DecodeMoneroNetwork);
    Success(BlockchainNetwork(b, m))
  }

  /** A request must be a struct holding the amount and the declared pair. */
  function DecodeRequest(j: Json): (r: Result<Request, SerdeError>)
    ensures !j.Obj? && !j.Arr? ==> r == Failure(InvalidType)
    ensures j.Obj? && (forall k | 0 <= k < |j.members| :: j.members[k].0 != "btc") ==> r.Failure?
    ensures j.Obj? && (forall k | 0 <= k < |j.members| :: j.members[k].0 != "blockchain_network") ==> r.Failure?
  {
    var (btc, n) :- DecodeStruct2(j, "btc", DecodeU64, "blockchain_network", DecodeNetwork);
    Success(Request(btc, n))
  }

  /** The variant names of `Error`, as derived `Serialize` writes them. */
  function ErrorName(e: Error): string {
    match e
    case NoSwapsAccepted => "NoSwapsAccepted"
    case AmountBelowMinimum(_, _) => "AmountBelowMinimum"
    case AmountAboveMaximum(_, _) => "AmountAboveMaximum"
    case BalanceTooLow(_) => "BalanceTooLow"
    case BlockchainNetworkMismatch(_, _) => "BlockchainNetworkMismatch"
    case Other => "Other"
  }

  const ErrorNames: set<string> :=
    {"NoSwapsAccepted", "AmountBelowMinimum", "AmountAboveMaximum", "BalanceTooLow", "BlockchainNetworkMismatch", "Other"}

  /** A refusal reason is read by its tag: the value decoded is the variant the tag
      names, a value that is no enum is the wrong type, and an unknown tag is
      rejected by name. */
  function DecodeError(j: Json): (r: Result<Error, SerdeError>)
    ensures VariantOf(j).Failure? ==> r == Failure(InvalidType)
    ensures r.Success? ==> VariantOf(j).Success? && VariantOf(j).value.0 == ErrorName(r.value)
    ensures VariantOf(j).Success? && VariantOf(j).value.0 !in ErrorNames ==>
              r == Failure(UnknownVariant(VariantOf(j).value.0))
  {
    var (name, content) :- VariantOf(j);
    if name == "NoSwapsAccepted" then
      var _ :- UnitContent(content); Success(NoSwapsAccepted)
    else if name == "AmountBelowMinimum" then
      var c :- Content(content);
      var (min, buy) :- DecodeStruct2(c, "min", DecodeU64, "buy", DecodeU64);
      Success(AmountBelowMinimum(min, buy))
    else if name == "AmountAboveMaximum" then
      var c :- Content(content);
      var (max, buy) :- DecodeStruct2(c, "max", DecodeU64, "buy", DecodeU64);
      Success(AmountAboveMaximum(max, buy))
    else if name == "BalanceTooLow" then
      var c :- Content(content);
      var buy :- DecodeStruct1(c, "buy", DecodeU64);
      Success(BalanceTooLow(buy))
    else if name == "BlockchainNetworkMismatch" then
      var c :- Content(content);
      var (cli, asb) :- DecodeStruct2(c, "cli", DecodeNetwork, "asb", DecodeNetwork);
      Success(BlockchainNetworkMismatch(cli, asb))
    else if name == "Other" then
      var _ :- UnitContent(content); Success(Other)
    else Failure(UnknownVariant(name))
  }

  function ResponseName(r: Response): string {
    match r
    case Xmr(_) => "Xmr"
    case Error(_) => "Error"
  }

  /** A response is read by its tag, as a refusal reason is. */
  function DecodeResponse(j: Json): (r: Result<Response, SerdeError>)
    ensures VariantOf(j).Failure? ==> r == Failure(InvalidType)
    ensures r.Success? ==> VariantOf(j).Success? && VariantOf(j).value.0 == ResponseName(r.value)
    ensures VariantOf(j).Success? && VariantOf(j).value.0 !in {"Xmr", "Error"} ==>
              r == Failure(UnknownVariant(VariantOf(j).value.0))
  {
    var (name, content) :- VariantOf(j);
    if name == "Xmr" then
      var c :- Content(content);
      var piconero :- DecodeU64(c);
      Success(Xmr(piconero))
    else if name == "Error" then
      var c :- Content(content);
      var e :- DecodeError(c);
      Success(Error(e))
    else Failure(UnknownVariant(name))
  }

  // ---------------------------------------------------------------------------
  // What the encoding promises

  /** A quote is written as `{"Xmr":N}` with N the piconero count in decimal digits,
      which read back give the amount. */
  lemma XmrText(piconero: u64)
    ensures Text(EncodeResponse(Xmr(piconero))) == "{\"Xmr\":" + NatText(piconero) + "}"
    ensures DigitsValue(NatText(piconero)) == piconero
  {
    ObjText1Of("Xmr", Int(piconero), NatText(piconero));
    NatTextRoundTrip(piconero);
  }

  /** A refusal is written inside a one-member `Error` object. */
  lemma ErrorResponseText(e: Error)
    ensures Text(EncodeResponse(Error(e))) == "{\"Error\":" + Text(EncodeError(e)) + "}"
  {
    ObjText1Of("Error", EncodeError(e), Text(EncodeError(e)));
  }

  /** The two unit refusals are bare strings. */
  lemma UnitErrorTexts()
    ensures Text(EncodeError(NoSwapsAccepted)) == "\"NoSwapsAccepted\""
    ensures Text(EncodeError(Other)) == "\"Other\""
  {
  }

  /** `AmountBelowMinimum` carries `min` and `buy` as satoshi digits, in that order. */
  lemma BelowMinimumText(min: u64, buy: u64)
    ensures Text(EncodeError(AmountBelowMinimum(min, buy)))
              == "{\"AmountBelowMinimum\":{\"min\":" + NatText(min) + ",\"buy\":" + NatText(buy) + "}}"
  {
    var t1, t2 := NatText(min), NatText(buy);
    NestedText2Of("AmountBelowMinimum", "min", Int(min), t1, "buy", Int(buy), t2);
    BelowLit(t1, t2);
  }

  lemma BelowLit(t1: string, t2: string)
    ensures "{\"" + "AmountBelowMinimum" + "\":{\"" + "min" + "\":" + t1 + ",\"" + "buy" + "\":" + t2 + "}}"
        == "{\"AmountBelowMinimum\":{\"min\":" + t1 + ",\"buy\":" + t2 + "}}"
  {}

  /** `AmountAboveMaximum` carries `max` and `buy` as satoshi digits, in that order. */
  lemma AboveMaximumText(max: u64, buy: u64)
    ensures Text(EncodeError(AmountAboveMaximum(max, buy)))
              == "{\"AmountAboveMaximum\":{\"max\":" + NatText(max) + ",\"buy\":" + NatText(buy) + "}}"
  {
    var t1, t2 := NatText(max), NatText(buy);
    NestedText2Of("AmountAboveMaximum", "max", Int(max), t1, "buy", Int(buy), t2);
    AboveLit(t1, t2);
  }

  lemma AboveLit(t1: string, t2: string)
    ensures "{\"" + "AmountAboveMaximum" + "\":{\"" + "max" + "\":" + t1 + ",\"" + "buy" + "\":" + t2 + "}}"
        == "{\"AmountAboveMaximum\":{\"max\":" + t1 + ",\"buy\":" + t2 + "}}"
  {
  }

  /** `BalanceTooLow` carries `buy` as satoshi digits. */
  lemma BalanceTooLowText(buy: u64)
    ensures Text(EncodeError(BalanceTooLow(buy))) == "{\"BalanceTooLow\":{\"buy\":" + NatText(buy) + "}}"
  {
    var t := NatText(buy);
    NestedText1Of("BalanceTooLow", "buy", Int(buy), t);
    BalanceLit(t);
  }

  lemma BalanceLit(t: string)
    ensures "{\"" + "BalanceTooLow" + "\":{\"" + "buy" + "\":" + t + "}}" == "{\"BalanceTooLow\":{\"buy\":" + t + "}}"
  {
  }

  /** A declared network pair is an object with a `bitcoin` and a `monero` member. */
  lemma NetworkText(n: BlockchainNetwork)
    ensures Text(EncodeNetwork(n))
              == "{\"bitcoin\":\"" + BitcoinNetworkName(n.bitcoin) + "\",\"monero\":\""
                 + MoneroNetworkName(n.monero) + "\"}"
  {
    var b, m := BitcoinNetworkName(n.bitcoin), MoneroNetworkName(n.monero);
    ObjText2Of("bitcoin", Str(b), "\"" + b + "\"", "monero", Str(m), "\"" + m + "\"");
    NetworkTextLit(b, m);
  }

  lemma NetworkTextLit(b: string, m: string)
    ensures "{\"" + "bitcoin" + "\":" + ("\"" + b + "\"") + ",\"" + "monero" + "\":" + ("\"" + m + "\"") + "}"
         == "{\"bitcoin\":\"" + b + "\",\"monero\":\"" + m + "\"}"
  {
  }

  /** `BlockchainNetworkMismatch` carries both declared pairs, `cli` first. */
  lemma MismatchText(cli: BlockchainNetwork, asb: BlockchainNetwork)
    ensures Text(EncodeError(BlockchainNetworkMismatch(cli, asb)))
              == "{\"BlockchainNetworkMismatch\":{\"cli\":" + Text(EncodeNetwork(cli))
                 + ",\"asb\":" + Text(EncodeNetwork(asb)) + "}}"
  {
    var t1, t2 := Text(EncodeNetwork(cli)), Text(EncodeNetwork(asb));
    NestedText2Of("BlockchainNetworkMismatch", "cli", EncodeNetwork(cli), t1, "asb", EncodeNetwork(asb), t2);
    MismatchLit(t1, t2);
  }

  lemma MismatchLit(t1: string, t2: string)
    ensures "{\"" + "BlockchainNetworkMismatch" + "\":{\"" + "cli" + "\":" + t1 + ",\"" + "asb" + "\":" + t2 + "}}"
        == "{\"BlockchainNetworkMismatch\":{\"cli\":" + t1 + ",\"asb\":" + t2 + "}}"
  {
  }

  /** A request is an object whose `btc` member is the satoshi count in decimal
      digits, followed by the declared network pair. */
  lemma RequestText(q: Request)
    ensures Text(EncodeRequest(q))
              == "{\"btc\":" + NatText(q.btc) + ",\"blockchain_network\":" + Text(EncodeNetwork(q.blockchainNetwork)) + "}"
    ensures DigitsValue(NatText(q.btc)) == q.btc
  {
    var n := q.blockchainNetwork;
    var t1, t2 := NatText(q.btc), Text(EncodeNetwork(n));
    ObjText2Of("btc", Int(q.btc), t1, "blockchain_network", EncodeNetwork(n), t2);
    RequestLit(t1, t2);
    NatTextRoundTrip(q.btc);
  }

  lemma RequestLit(t1: string, t2: string)
    ensures "{\"" + "btc" + "\":" + t1 + ",\"" + "blockchain_network" + "\":" + t2 + "}"
        == "{\"btc\":" + t1 + ",\"blockchain_network\":" + t2 + "}"
  {
  }

  // The seven wire strings of `snapshot_test_serialize`, one lemma each.

  lemma SnapshotXmr()
    ensures Text(EncodeResponse(Xmr(100000))) == "{\"Xmr\":100000}"
  {
    assert NatText(100000) == "100000";
    XmrText(100000);
  }

  lemma SnapshotNoSwapsAccepted()
    ensures Text(EncodeResponse(Error(NoSwapsAccepted))) == "{\"Error\":\"NoSwapsAccepted\"}"
  {
    UnitErrorTexts();
    ErrorResponseText(NoSwapsAccepted);
  }

  lemma SnapshotOther()
    ensures Text(EncodeResponse(Error(Other))) == "{\"Error\":\"Other\"}"
  {
    UnitErrorTexts();
    ErrorResponseText(Other);
  }

  lemma SnapshotBelowMinimum()
    ensures Text(EncodeResponse(Error(AmountBelowMinimum(0, 0))))
              == "{\"Error\":{\"AmountBelowMinimum\":{\"min\":0,\"buy\":0}}}"
  {
    var e := AmountBelowMinimum(0, 0);
    calc {
      Text(EncodeResponse(Error(e)));
    == { ErrorResponseText(e); }
      "{\"Error\":" + Text(EncodeError(e)) + "}";
    == { BelowMinimumText(0, 0); assert NatText(0) == "0"; }
      "{\"Error\":" + ("{\"AmountBelowMinimum\":{\"min\":" + "0" + ",\"buy\":" + "0" + "}}") + "}";
    == { SnapshotBelowMinimumLit(); }
      "{\"Error\":{\"AmountBelowMinimum\":{\"min\":0,\"buy\":0}}}";
    }
  }

  lemma SnapshotBelowMinimumLit()
    ensures "{\"Error\":" + ("{\"AmountBelowMinimum\":{\"min\":" + "0" + ",\"buy\":" + "0" + "}}") + "}"
         == "{\"Error\":{\"AmountBelowMinimum\":{\"min\":0,\"buy\":0}}}"
  {
  }

  lemma SnapshotAboveMaximum()
    ensures Text(EncodeResponse(Error(AmountAboveMaximum(0, 0))))
              == "{\"Error\":{\"AmountAboveMaximum\":{\"max\":0,\"buy\":0}}}"
  {
    var e := AmountAboveMaximum(0, 0);
    calc {
      Text(EncodeResponse(Error(e)));
    == { ErrorResponseText(e); }
      "{\"Error\":" + Text(EncodeError(e)) + "}";
    == { AboveMaximumText(0, 0); assert NatText(0) == "0"; }
      "{\"Error\":" + ("{\"AmountAboveMaximum\":{\"max\":" + "0" + ",\"buy\":" + "0" + "}}") + "}";
    == { SnapshotAboveMaximumLit(); }
      "{\"Error\":{\"AmountAboveMaximum\":{\"max\":0,\"buy\":0}}}";
    }
  }

  lemma SnapshotAboveMaximumLit()
    ensures "{\"Error\":" + ("{\"AmountAboveMaximum\":{\"max\":" + "0" + ",\"buy\":" + "0" + "}}") + "}"
         == "{\"Error\":{\"AmountAboveMaximum\":{\"max\":0,\"buy\":0}}}"
  {
  }

  lemma SnapshotBalanceTooLow()
    ensures Text(EncodeResponse(Error(BalanceTooLow(0)))) == "{\"Error\":{\"BalanceTooLow\":{\"buy\":0}}}"
  {
    var e := BalanceTooLow(0);
    calc {
      Text(EncodeResponse(Error(e)));
    == { ErrorResponseText(e); }
      "{\"Error\":" + Text(EncodeError(e)) + "}";
    == { BalanceTooLowText(0); assert NatText(0) == "0"; }
      "{\"Error\":" + ("{\"BalanceTooLow\":{\"buy\":" + "0" + "}}") + "}";
    == { SnapshotBalanceTooLowLit(); }
      "{\"Error\":{\"BalanceTooLow\":{\"buy\":0}}}";
    }
  }

  lemma SnapshotBalanceTooLowLit()
    ensures "{\"Error\":" + ("{\"BalanceTooLow\":{\"buy\":" + "0" + "}}") + "}" == "{\"Error\":{\"BalanceTooLow\":{\"buy\":0}}}"
  {
  }

  lemma SnapshotMismatch()
    ensures Text(EncodeResponse(Error(BlockchainNetworkMismatch(
                BlockchainNetwork(BitcoinNetwork.Mainnet, MoneroNetwork.Mainnet),
                BlockchainNetwork(BitcoinNetwork.Testnet, MoneroNetwork.Stagenet)))))
              == "{\"Error\":{\"BlockchainNetworkMismatch\":{\"cli\":"
                 + "{\"bitcoin\":\"Mainnet\",\"monero\":\"Mainnet\"}"
                 + ",\"asb\":"
                 + "{\"bitcoin\":\"Testnet\",\"monero\":\"Stagenet\"}"
                 + "}}}"
  {
    var cli := BlockchainNetwork(BitcoinNetwork.Mainnet, MoneroNetwork.Mainnet);
    var asb := BlockchainNetwork(BitcoinNetwork.Testnet, MoneroNetwork.Stagenet);
    var e := BlockchainNetworkMismatch(cli, asb);
    var tc, ta := Text(EncodeNetwork(cli)), Text(EncodeNetwork(asb));
    NetworkText(cli);
    NetworkText(asb);
    CliNetworkLit();
    AsbNetworkLit();
    ErrorResponseText(e);
    MismatchText(cli, asb);
    SnapshotMismatchLit(tc, ta);
  }

  lemma CliNetworkLit()
    ensures "{\"bitcoin\":\"" + "Mainnet" + "\",\"monero\":\"" + "Mainnet" + "\"}"
         == "{\"bitcoin\":\"Mainnet\",\"monero\":\"Mainnet\"}"
  {
  }

  lemma AsbNetworkLit()
    ensures "{\"bitcoin\":\"" + "Testnet" + "\",\"monero\":\"" + "Stagenet" + "\"}"
         == "{\"bitcoin\":\"Testnet\",\"monero\":\"Stagenet\"}"
  {
  }

  lemma SnapshotMismatchLit(tc: string, ta: string)
    ensures "{\"Error\":" + ("{\"BlockchainNetworkMismatch\":{\"cli\":" + tc + ",\"asb\":" + ta + "}}") + "}"
         == "{\"Error\":{\"BlockchainNetworkMismatch\":{\"cli\":" + tc + ",\"asb\":" + ta + "}}}"
  {
  }

  /** Decoding a one-field struct object recovers the field. */
  lemma Struct1RoundTrip<A>(na: string, da: Json -> Result<A, SerdeError>, ea: Json, a: A)
    requires da(ea) == Success(a)
    ensures DecodeStruct1(Obj([(na, ea)]), na, da) == Success(a)
  {
    var ms := [(na, ea)];
    assert Gather1(ms[1..], na, da, Some(a)) == Success(Some(a));
    assert Gather1(ms, na, da, None) == Success(Some(a));
  }

  /** Decoding a two-field struct object recovers both fields, provided the field
      names differ. */
  lemma Struct2RoundTrip<A, B>(na: string, da: Json -> Result<A, SerdeError>, ea: Json, a: A,
                               nb: string, db: Json -> Result<B, SerdeError>, eb: Json, b: B)
    requires na != nb
    requires da(ea) == Success(a) && db(eb) == Success(b)
    ensures DecodeStruct2(Obj([(na, ea), (nb, eb)]), na, da, nb, db) == Success((a, b))
  {
    var ms := [(na, ea), (nb, eb)];
    assert ms[1..] == [(nb, eb)];
    assert ms[1..][1..] == [];
    assert Gather2(ms[1..][1..], na, da, nb, db, Some(a), Some(b)) == Success((Some(a), Some(b)));
    assert Gather2(ms[1..], na, da, nb, db, Some(a), None) == Success((Some(a), Some(b)));
    assert Gather2(ms, na, da, nb, db, None, None) == Success((Some(a), Some(b)));
  }

  /** Decoding the encoding of a refusal reason gives it back, amounts and both
      network pairs included. */
  lemma {:induction false} ErrorRoundTrip(e: Error)
    ensures DecodeError(EncodeError(e)) == Success(e)
  {
    match e
    case NoSwapsAccepted =>
    case AmountBelowMinimum(min, buy) =>
      Struct2RoundTrip("min", DecodeU64, Int(min), min, "buy", DecodeU64, Int(buy), buy);
    case AmountAboveMaximum(max, buy) =>
      Struct2RoundTrip("max", DecodeU64, Int(max), max, "buy", DecodeU64, Int(buy), buy);
    case BalanceTooLow(buy) =>
      Struct1RoundTrip("buy", DecodeU64, Int(buy), buy);
    case BlockchainNetworkMismatch(cli, asb) =>
      Struct2RoundTrip("cli", DecodeNetwork, EncodeNetwork(cli), cli, "asb", DecodeNetwork, EncodeNetwork(asb), asb);
    case Other =>
  }

  /** Decoding the encoding of a response gives the response back. */
  lemma {:induction false} ResponseRoundTrip(r: Response)
    ensures DecodeResponse(EncodeResponse(r)) == Success(r)
  {
    match r
    case Xmr(_) =>
    case Error(e) => ErrorRoundTrip(e);
  }

  /** Hence distinct responses, and distinct requests, never share an encoding. */
  lemma EncodingsInjective(r1: Response, r2: Response, q1: Request, q2: Request)
    ensures EncodeResponse(r1) == EncodeResponse(r2) ==> r1 == r2
    ensures EncodeRequest(q1) == EncodeRequest(q2) ==> q1 == q2
  {
    ResponseRoundTrip(r1);
    ResponseRoundTrip(r2);
  }
}
