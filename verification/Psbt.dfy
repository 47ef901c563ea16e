/**
 The signing policy of a seed session (signer-probe/src/seed.rs): which transactions it reviews,
 what the review shows, and what signing a reviewed transaction does.

 `Lib` stands for the bitcoin libraries: functions about which only `Lawful` is known.
 */
module Psbt {
  import opened Bytes

  const MAX_PSBT_BYTES := 4096
  const MAX_FEE_SAT := 1_000_000
  const MAX_MONEY := 2_100_000_000_000_000
  const MAX_ADDRESS_INDEX := 1000
  const HARDENED := 0x8000_0000
  const SIGHASH_ALL := 1

  type u64 = n: int | 0 <= n < 0x1_0000_0000_0000_0000

  type Key = seq<byte>
  type Script = seq<byte>
  type Digest = seq<byte>
  type Signature = seq<byte>
  type Node = seq<byte>
  type Path = seq<nat>

  datatype Network = Bitcoin | Testnet | Signet | Regtest

  datatype Origin = Origin(key: Key, fingerprint: nat, path: Path)

  datatype OutPoint = OutPoint(txid: seq<byte>, vout: nat)

  datatype TxOut = TxOut(value: u64, script: Script)

  datatype Tx = Tx(inputs: seq<OutPoint>, outputs: seq<TxOut>, rest: seq<byte>)

  datatype Input = Input(
    sighashType: Option<nat>, finalScript: bool, partialSigs: map<Key, Signature>, origins: seq<Origin>,
    witnessUtxo: Option<TxOut>, previousTx: Option<Tx>, rest: seq<byte>)

  datatype Output = Output(origins: seq<Origin>, rest: seq<byte>)

  datatype Psbt = Psbt(version: nat, tx: Tx, inputs: seq<Input>, outputs: seq<Output>, rest: seq<byte>)

  datatype Lib = Lib(
    deserialize: seq<byte> -> Option<Psbt>,
    serialize: Psbt -> seq<byte>,
    newMaster: (Network, seq<byte>) -> Option<Node>,
    child: (Node, nat) -> Option<Node>,
    publicKey: Node -> Key,
    fingerprint: Node -> nat,
    p2wpkh: (Key, Network) -> Script,
    isP2wpkh: Script -> bool,
    address: (Script, Network) -> Option<string>,
    txid: Tx -> seq<byte>,
    sighashAll: (Tx, Script, u64) -> Option<Digest>,
    sign: (Node, Digest) -> Signature,
    verify: (Digest, Signature, Key) -> bool)

  /** Written and read back, the PSBT is the same. */
  predicate ReadsBack(lib: Lib, p: Psbt) {
    lib.deserialize(lib.serialize(p)) == Some(p)
  }

  /**
   A PSBT that was read can be written and read again, also with one more signature on its first
   input, and signatures verify under their own key.
   */
  ghost predicate Lawful(lib: Lib) {
    && (forall bytes :: lib.deserialize(bytes).Some? ==> ReadsBack(lib, lib.deserialize(bytes).value))
    && (forall bytes, key, sig :: lib.deserialize(bytes).Some? && |lib.deserialize(bytes).value.inputs| > 0 ==>
          ReadsBack(lib, WithSignature(lib.deserialize(bytes).value, key, sig)))
    && (forall node, d :: lib.verify(d, lib.sign(node, d), lib.publicKey(node)))
  }

  const ADDRESS_BYTES := 44

  /** The address of a P2WPKH script is at most that of the regtest network, `bcrt1q` and 38 more. */
  ghost predicate AddressesFit(lib: Lib) {
    forall script, network :: lib.isP2wpkh(script) && lib.address(script, network).Some? ==>
      |lib.address(script, network).value| <= ADDRESS_BYTES
  }

  datatype Failure =
    | SizeLimit | InvalidPsbt | Version | InputCount | OutputCount | SeedLocked | SighashType | AlreadySigned
    | MissingKeyOrigin | NetworkMismatch | FingerprintMismatch | WrongPath | DerivationFailed | InputKeyMismatch
    | MissingUtxo | InputAmount | InputScript | PreviousTx | OutputAmount | NotSegwit | Multisig | ChangeKey
    | Amounts | BadAddress | NegativeFee | FeeLimit | BadSighash

  // ----- the session -----

  datatype Session = Session(seed: seq<byte>, network: Network, locked: bool)

  function CoinType(s: Session): nat { if s.network == Bitcoin then 0 else 1 }

  function Master(lib: Lib, s: Session): Option<Node> {
    if s.locked then None else lib.newMaster(s.network, s.seed)
  }

  function Derived(lib: Lib, node: Node, path: Path): Option<Node> {
    if path == [] then Some(node)
    else match Derived(lib, node, path[..|path| - 1])
      case None => None
      case Some(parent) => lib.child(parent, path[|path| - 1])
  }

  /** BIP 84, account zero: receive or change branch, bounded index. */
  predicate InAccount(s: Session, path: Path) {
    && |path| == 5 && path[0] == HARDENED + 84 && path[1] == HARDENED + CoinType(s) && path[2] == HARDENED
    && path[3] <= 1 && path[4] <= MAX_ADDRESS_INDEX
  }

  function PublicAt(lib: Lib, s: Session, path: Path): Result<Key, Failure> {
    if !InAccount(s, path) then Err(WrongPath)
    else match Master(lib, s)
      case None => Err(SeedLocked)
      case Some(master) =>
        match Derived(lib, master, path)
        case None => Err(DerivationFailed)
        case Some(node) => Ok(lib.publicKey(node))
  }

  // ----- which key that is -----

  /** Every node of the chain is the child of the one before it under the path's own next number. */
  ghost predicate Chain(lib: Lib, s: Session, path: Path, nodes: seq<Node>) {
    && |nodes| == |path| + 1
    && lib.newMaster(s.network, s.seed) == Some(nodes[0])
    && forall i :: 0 <= i < |path| ==> lib.child(nodes[i], path[i]) == Some(nodes[i + 1])
  }

  /** The node that the path leads to from the session's own seed. */
  ghost predicate LeadsTo(lib: Lib, s: Session, path: Path, node: Node) {
    exists nodes: seq<Node> :: Chain(lib, s, path, nodes) && nodes[|path|] == node
  }

  lemma {:induction false} DerivedHasChain(lib: Lib, s: Session, master: Node, path: Path) returns (nodes: seq<Node>)
    requires lib.newMaster(s.network, s.seed) == Some(master) && Derived(lib, master, path).Some?
    ensures Chain(lib, s, path, nodes) && Derived(lib, master, path) == Some(nodes[|path|])
  {
    if path == [] {
      nodes := [master];
    } else {
      var front := DerivedHasChain(lib, s, master, path[..|path| - 1]);
      nodes := front + [Derived(lib, master, path).value];
      forall i | 0 <= i < |path| ensures lib.child(nodes[i], path[i]) == Some(nodes[i + 1]) {
        if i < |path| - 1 { assert lib.child(front[i], path[..|path| - 1][i]) == Some(front[i + 1]); }
      }
    }
  }

  lemma {:induction false} ChainIsDerived(lib: Lib, s: Session, path: Path, nodes: seq<Node>)
    requires Chain(lib, s, path, nodes)
    ensures Derived(lib, nodes[0], path) == Some(nodes[|path|])
  {
    if path != [] {
      var n := |path| - 1;
      assert lib.child(nodes[n], path[n]) == Some(nodes[n + 1]);
      ChainIsDerived(lib, s, path[..n], nodes[..n + 1]);
    }
  }

  lemma DerivedIffLeads(lib: Lib, s: Session, path: Path, node: Node)
    requires !s.locked
    ensures Master(lib, s).Some? && Derived(lib, Master(lib, s).value, path) == Some(node)
       <==> LeadsTo(lib, s, path, node)
  {
    if Master(lib, s).Some? && Derived(lib, Master(lib, s).value, path) == Some(node) {
      var nodes := DerivedHasChain(lib, s, Master(lib, s).value, path);
    }
    if LeadsTo(lib, s, path, node) {
      var nodes: seq<Node> :| Chain(lib, s, path, nodes) && nodes[|path|] == node;
      ChainIsDerived(lib, s, path, nodes);
    }
  }

  /** The paths of BIP 84 in account zero of a coin, spelled out: m/84'/coin'/0'/branch/index. */
  ghost predicate OwnPath(s: Session, path: Path) {
    exists branch: nat, index: nat :: branch <= 1 && index <= 1000 && path == OwnPathOf(s, branch, index)
  }

  function OwnPathOf(s: Session, branch: nat, index: nat): Path {
    [0x8000_0054, if s.network == Bitcoin then 0x8000_0000 else 0x8000_0001, 0x8000_0000, branch, index]
  }

  lemma InAccountIff(s: Session, path: Path)
    ensures InAccount(s, path) <==> OwnPath(s, path)
  {
    if InAccount(s, path) { assert path == OwnPathOf(s, path[3], path[4]); }
  }

  /**
   Which key a session gives for a path: exactly the public key of the node that the path itself,
   number by number, leads to from the master of this seed and network; only for unlocked sessions
   and only inside the account.
   */
  lemma PublicAtIff(lib: Lib, s: Session, path: Path, key: Key)
    ensures PublicAt(lib, s, path) == Ok(key)
       <==> OwnPath(s, path) && !s.locked && exists node :: LeadsTo(lib, s, path, node) && lib.publicKey(node) == key
  {
    InAccountIff(s, path);
    if PublicAt(lib, s, path) == Ok(key) {
      var node := Derived(lib, Master(lib, s).value, path).value;
      DerivedIffLeads(lib, s, path, node);
      assert LeadsTo(lib, s, path, node);
    }
    if OwnPath(s, path) && !s.locked && exists node :: LeadsTo(lib, s, path, node) && lib.publicKey(node) == key {
      var node :| LeadsTo(lib, s, path, node) && lib.publicKey(node) == key;
      DerivedIffLeads(lib, s, path, node);
    }
  }

  // ----- the review -----

  datatype DisplayItem = DisplayItem(address: string, amount: u64, isChange: bool)

  datatype Review = Review(
    psbt: Psbt, outputs: seq<DisplayItem>, fee: u64, sighash: Digest, path: Path, key: Key)

  predicate ForeignCoin(s: Session, path: Path) {
    && |path| == 5 && path[0] == HARDENED + 84
    && (path[1] == HARDENED || path[1] == HARDENED + 1) && path[1] != HARDENED + CoinType(s)
  }

  /** The checks that need no key. */
  function ShapeFailure(p: Psbt): Option<Failure> {
    if p.version != 0 then Some(Version)
    else if |p.inputs| != 1 || |p.tx.inputs| != 1 then Some(InputCount)
    else if |p.outputs| == 0 || |p.outputs| > 2 || |p.outputs| != |p.tx.outputs| then Some(OutputCount)
    else None
  }

  /** The checks of the one input, in the order of the code. */
  function InputFailure(lib: Lib, s: Session, fp: nat, p: Psbt): Option<Failure>
    requires ShapeFailure(p).None?
  {
    var input := p.inputs[0];
    if input.sighashType.Some? && input.sighashType.value != SIGHASH_ALL then Some(SighashType)
    else if input.finalScript || input.partialSigs != map[] then Some(AlreadySigned)
    else if |input.origins| != 1 then Some(MissingKeyOrigin)
    else
      var o := input.origins[0];
      if ForeignCoin(s, o.path) then Some(NetworkMismatch)
      else if o.fingerprint != fp then Some(FingerprintMismatch)
      else match PublicAt(lib, s, o.path)
        case Err(e) => Some(e)
        case Ok(key) =>
          if key != o.key then Some(InputKeyMismatch)
          else if input.witnessUtxo.None? then Some(MissingUtxo)
          else UtxoFailure(lib, s, p, input.witnessUtxo.value, key)
  }

  function UtxoFailure(lib: Lib, s: Session, p: Psbt, utxo: TxOut, key: Key): Option<Failure>
    requires ShapeFailure(p).None?
  {
    if utxo.value > MAX_MONEY then Some(InputAmount)
    else if utxo.script != lib.p2wpkh(key, s.network) then Some(InputScript)
    else if p.inputs[0].previousTx.Some? && !IsPrevious(lib, p.inputs[0].previousTx.value, p.tx.inputs[0], utxo)
    then Some(PreviousTx)
    else None
  }

  predicate IsPrevious(lib: Lib, prev: Tx, point: OutPoint, utxo: TxOut) {
    lib.txid(prev) == point.txid && point.vout < |prev.outputs| && prev.outputs[point.vout] == utxo
  }

  /** Whether an origin in the metadata makes the output change; an origin of ours must be right. */
  function ChangeFlag(lib: Lib, s: Session, fp: nat, origins: seq<Origin>, out: TxOut): Result<bool, Failure>
    requires |origins| <= 1
  {
    if origins == [] || origins[0].fingerprint != fp then Ok(false)
    else match PublicAt(lib, s, origins[0].path)
      case Err(e) => Err(e)
      case Ok(key) =>
        if key != origins[0].key || lib.p2wpkh(key, s.network) != out.script then Err(ChangeKey)
        else Ok(origins[0].path[3] == 1)
  }

  /** One more output: the item shown for it and the new total. */
  function Item(lib: Lib, s: Session, fp: nat, meta: Output, out: TxOut, total: u64)
    : Result<(DisplayItem, u64), Failure>
  {
    if out.value > MAX_MONEY then Err(OutputAmount)
    else if !lib.isP2wpkh(out.script) then Err(NotSegwit)
    else if |meta.origins| > 1 then Err(Multisig)
    else match ChangeFlag(lib, s, fp, meta.origins, out)
      case Err(e) => Err(e)
      case Ok(change) =>
        if total + out.value >= 0x1_0000_0000_0000_0000 then Err(Amounts)
        else match lib.address(out.script, s.network)
          case None => Err(BadAddress)
          case Some(address) => Ok((DisplayItem(address, out.value, change), total + out.value))
  }

  function Items(lib: Lib, s: Session, fp: nat, p: Psbt, n: nat): Result<(seq<DisplayItem>, u64), Failure>
    requires n <= |p.outputs| == |p.tx.outputs|
  {
    if n == 0 then Ok(([], 0))
    else match Items(lib, s, fp, p, n - 1)
      case Err(e) => Err(e)
      case Ok((items, total)) =>
        match Item(lib, s, fp, p.outputs[n - 1], p.tx.outputs[n - 1], total)
        case Err(e) => Err(e)
        case Ok((item, total')) => Ok((items + [item], total'))
  }

  /** What is left once every check of input and outputs has passed. */
  function Concluded(lib: Lib, p: Psbt, items: seq<DisplayItem>, total: u64): Result<Review, Failure>
    requires |p.inputs| == 1 && |p.inputs[0].origins| == 1 && p.inputs[0].witnessUtxo.Some?
  {
    var utxo, o := p.inputs[0].witnessUtxo.value, p.inputs[0].origins[0];
    if utxo.value < total then Err(NegativeFee)
    else if utxo.value - total > MAX_FEE_SAT then Err(FeeLimit)
    else match lib.sighashAll(p.tx, utxo.script, utxo.value)
      case None => Err(BadSighash)
      case Some(digest) => Ok(Review(p, items, utxo.value - total, digest, o.path, o.key))
  }

  function Reviewed(lib: Lib, s: Session, bytes: seq<byte>): Result<Review, Failure> {
    if |bytes| == 0 || |bytes| > MAX_PSBT_BYTES then Err(SizeLimit)
    else match lib.deserialize(bytes)
      case None => Err(InvalidPsbt)
      case Some(p) =>
        if ShapeFailure(p).Some? then Err(ShapeFailure(p).value)
        else match Master(lib, s)
          case None => Err(SeedLocked)
          case Some(master) =>
            var fp := lib.fingerprint(master);
            if InputFailure(lib, s, fp, p).Some? then Err(InputFailure(lib, s, fp, p).value)
            else match Items(lib, s, fp, p, |p.outputs|)
              case Err(e) => Err(e)
              case Ok((items, total)) => Concluded(lib, p, items, total)
  }

  // ----- signing -----

  datatype SignError = Locked | Parse | InvalidPath | MissingWitnessUtxo | Sighash | Verify

  datatype Binding = Binding(bytes: seq<byte>, sighash: Digest, key: Key, path: Path)

  datatype SignedPsbt = SignedPsbt(bytes: seq<byte>, txid: seq<byte>)

  /** The only thing signing adds to the transaction. */
  function WithSignature(p: Psbt, key: Key, sig: Signature): Psbt
    requires |p.inputs| > 0
  {
    var input := p.inputs[0];
    p.(inputs := p.inputs[0 := input.(partialSigs := input.partialSigs[key := sig])])
  }

  function SignedWith(lib: Lib, p: Psbt, digest: Digest, node: Node, key: Key): Result<SignedPsbt, SignError>
    requires |p.inputs| > 0
  {
    var sig := lib.sign(node, digest);
    if !lib.verify(digest, sig, key) then Err(Verify)
    else
      var signed := WithSignature(p, key, sig);
      Ok(SignedPsbt(lib.serialize(signed), lib.txid(signed.tx)))
  }

  function Signed(lib: Lib, s: Session, b: Binding): Result<SignedPsbt, SignError> {
    if s.locked then Err(Locked)
    else match lib.deserialize(b.bytes)
      case None => Err(Parse)
      case Some(p) =>
        if |p.inputs| == 0 || |p.outputs| == 0 then Err(Parse)
        else match p.inputs[0].witnessUtxo
          case None => Err(MissingWitnessUtxo)
          case Some(utxo) =>
            var digest := lib.sighashAll(p.tx, utxo.script, utxo.value);
            if digest != Some(b.sighash) then Err(Sighash)
            else match Master(lib, s)
              case None => Err(InvalidPath)
              case Some(master) =>
                match Derived(lib, master, b.path)
                case None => Err(InvalidPath)
                case Some(node) => SignedWith(lib, p, b.sighash, node, b.key)
  }

  /** The binding a terminal makes from a review. */
  function BindingOf(lib: Lib, r: Review): Binding {
    Binding(lib.serialize(r.psbt), r.sighash, r.key, r.path)
  }

  // ----- the object -----

  class SeedSession {
    var seed: seq<byte>
    const network: Network
    var locked: bool

    ghost function State(): Session
      reads this
    {
      Session(seed, network, locked)
    }

    constructor (seed: seq<byte>, network: Network)
      ensures State() == Session(seed, network, false)
    {
      this.seed, this.network, locked := seed, network, false;
    }

    /** Erase the seed in place; every later use fails. */
    method Lock()
      modifies this
      ensures State() == Session(Zeros(|old(seed)|), network, true)
    {
      seed := Zeros(|seed|);
      locked := true;
    }

    method GetMaster(lib: Lib) returns (node: Option<Node>)
      ensures node == Master(lib, State())
    {
      if locked {
        return None;
      }
      node := lib.newMaster(network, seed);
    }

    /** One derivation step per index. */
    method Derive(lib: Lib, master: Node, path: Path) returns (node: Option<Node>)
      ensures node == Derived(lib, master, path)
    {
      var at := master;
      var i := 0;
      while i < |path|
        invariant i <= |path| && Derived(lib, master, path[..i]) == Some(at)
      {
        assert path[..i + 1][..i] == path[..i];
        match lib.child(at, path[i]) {
          case None =>
            Underivable(lib, master, path, i + 1);
            return None;
          case Some(next) => at := next;
        }
        i := i + 1;
      }
      assert path[..i] == path;
      return Some(at);
    }

    method PublicKeyAt(lib: Lib, path: Path) returns (key: Result<Key, Failure>)
      ensures key == PublicAt(lib, State(), path)
    {
      if |path| != 5 || path[0] != HARDENED + 84 || path[1] != HARDENED + (if network == Bitcoin then 0 else 1)
         || path[2] != HARDENED || path[3] > 1 || path[4] > MAX_ADDRESS_INDEX {
        return Err(WrongPath);
      }
      var master := GetMaster(lib);
      if master.None? {
        return Err(SeedLocked);
      }
      var node := Derive(lib, master.value, path);
      if node.None? {
        return Err(DerivationFailed);
      }
      return Ok(lib.publicKey(node.value));
    }

    method ReviewPsbt(lib: Lib, bytes: seq<byte>) returns (r: Result<Review, Failure>)
      ensures r == Reviewed(lib, State(), bytes)
    {
      if |bytes| == 0 || |bytes| > MAX_PSBT_BYTES {
        return Err(SizeLimit);
      }
      var parsed := lib.deserialize(bytes);
      if parsed.None? {
        return Err(InvalidPsbt);
      }
      var p := parsed.value;
      if p.version != 0 {
        return Err(Version);
      }
      if |p.inputs| != 1 || |p.tx.inputs| != 1 {
        return Err(InputCount);
      }
      if |p.outputs| == 0 || |p.outputs| > 2 || |p.outputs| != |p.tx.outputs| {
        return Err(OutputCount);
      }
      var master := GetMaster(lib);
      if master.None? {
        return Err(SeedLocked);
      }
      var fp := lib.fingerprint(master.value);
      var failure := CheckInput(lib, fp, p);
      if failure.Some? {
        return Err(failure.value);
      }
      var shown := CheckOutputs(lib, fp, p);
      if shown.Err? {
        return Err(shown.error);
      }
      return Concluded(lib, p, shown.value.0, shown.value.1);
    }

    method CheckInput(lib: Lib, fp: nat, p: Psbt) returns (failure: Option<Failure>)
      requires ShapeFailure(p).None?
      ensures failure == InputFailure(lib, State(), fp, p)
    {
      var input := p.inputs[0];
      if input.sighashType.Some? && input.sighashType.value != SIGHASH_ALL {
        return Some(SighashType);
      }
      if input.finalScript || input.partialSigs != map[] {
        return Some(AlreadySigned);
      }
      if |input.origins| != 1 {
        return Some(MissingKeyOrigin);
      }
      var o := input.origins[0];
      if ForeignCoin(Session(seed, network, locked), o.path) {
        return Some(NetworkMismatch);
      }
      if o.fingerprint != fp {
        return Some(FingerprintMismatch);
      }
      var key := PublicKeyAt(lib, o.path);
      if key.Err? {
        return Some(key.error);
      }
      if key.value != o.key {
        return Some(InputKeyMismatch);
      }
      if input.witnessUtxo.None? {
        return Some(MissingUtxo);
      }
      return UtxoFailure(lib, Session(seed, network, locked), p, input.witnessUtxo.value, key.value);
    }

    method CheckOutputs(lib: Lib, fp: nat, p: Psbt) returns (shown: Result<(seq<DisplayItem>, u64), Failure>)
      requires ShapeFailure(p).None?
      ensures shown == Items(lib, State(), fp, p, |p.outputs|)
    {
      var items: seq<DisplayItem> := [];
      var total: u64 := 0;
      var i := 0;
      while i < |p.outputs|
        invariant i <= |p.outputs| && Items(lib, State(), fp, p, i) == Ok((items, total))
      {
        var item := CheckOutput(lib, fp, p.outputs[i], p.tx.outputs[i], total);
        if item.Err? {
          ItemsFail(lib, State(), fp, p, i + 1, |p.outputs|);
          return Err(item.error);
        }
        items := items + [item.value.0];
        total := item.value.1;
        i := i + 1;
      }
      return Ok((items, total));
    }

    method CheckOutput(lib: Lib, fp: nat, meta: Output, out: TxOut, total: u64)
      returns (item: Result<(DisplayItem, u64), Failure>)
      ensures item == Item(lib, State(), fp, meta, out, total)
    {
      if out.value > MAX_MONEY {
        return Err(OutputAmount);
      }
      if !lib.isP2wpkh(out.script) {
        return Err(NotSegwit);
      }
      if |meta.origins| > 1 {
        return Err(Multisig);
      }
      var isChange := false;
      if |meta.origins| == 1 && meta.origins[0].fingerprint == fp {
        var key := PublicKeyAt(lib, meta.origins[0].path);
        if key.Err? {
          return Err(key.error);
        }
        if key.value != meta.origins[0].key || lib.p2wpkh(meta.origins[0].key, network) != out.script {
          return Err(ChangeKey);
        }
        isChange := meta.origins[0].path[3] == 1;
      }
      if total + out.value >= 0x1_0000_0000_0000_0000 {
        return Err(Amounts);
      }
      var address := lib.address(out.script, network);
      if address.None? {
        return Err(BadAddress);
      }
      return Ok((DisplayItem(address.value, out.value, isChange), total + out.value));
    }

    method SignPsbt(lib: Lib, b: Binding) returns (r: Result<SignedPsbt, SignError>)
      ensures r == Signed(lib, State(), b)
    {
      if locked {
        return Err(Locked);
      }
      var parsed := lib.deserialize(b.bytes);
      if parsed.None? || |parsed.value.inputs| == 0 || |parsed.value.outputs| == 0 {
        return Err(Parse);
      }
      var p := parsed.value;
      if p.inputs[0].witnessUtxo.None? {
        return Err(MissingWitnessUtxo);
      }
      var utxo := p.inputs[0].witnessUtxo.value;
      var digest := lib.sighashAll(p.tx, utxo.script, utxo.value);
      if digest.None? || digest.value != b.sighash {
        return Err(Sighash);
      }
      var master := GetMaster(lib);
      if master.None? {
        return Err(InvalidPath);
      }
      var node := Derive(lib, master.value, b.path);
      if node.None? {
        return Err(InvalidPath);
      }
      var signature := lib.sign(node.value, digest.value);
      if !lib.verify(digest.value, signature, b.key) {
        return Err(Verify);
      }
      var input := p.inputs[0];
      var signed := p.(inputs := p.inputs[0 := input.(partialSigs := input.partialSigs[b.key := signature])]);
      return Ok(SignedPsbt(lib.serialize(signed), lib.txid(signed.tx)));
    }
  }

  lemma {:induction false} Underivable(lib: Lib, master: Node, path: Path, i: nat)
    requires i <= |path| && Derived(lib, master, path[..i]).None?
    ensures Derived(lib, master, path).None?
    decreases |path|
  {
    if i < |path| {
      assert path[..|path| - 1][..i] == path[..i];
      Underivable(lib, master, path[..|path| - 1], i);
    } else {
      assert path[..i] == path;
    }
  }

  lemma {:induction false} ItemsFail(lib: Lib, s: Session, fp: nat, p: Psbt, i: nat, n: nat)
    requires i <= n <= |p.outputs| == |p.tx.outputs| && Items(lib, s, fp, p, i).Err?
    ensures Items(lib, s, fp, p, n) == Items(lib, s, fp, p, i)
  {
    if i < n {
      ItemsFail(lib, s, fp, p, i, n - 1);
    }
  }

  // ----- what an accepted review means -----

  function Total(items: seq<DisplayItem>): nat {
    if items == [] then 0 else Total(items[..|items| - 1]) + items[|items| - 1].amount
  }

  /** A key of this session, on the change branch, pays this output. */
  ghost predicate EarnsChange(lib: Lib, s: Session, fp: nat, meta: Output, out: TxOut) {
    exists o :: o in meta.origins && o.fingerprint == fp && InAccount(s, o.path) && o.path[3] == 1
                && PublicAt(lib, s, o.path) == Ok(o.key) && out.script == lib.p2wpkh(o.key, s.network)
  }

  /** The item tells the truth about its output. */
  ghost predicate Honest(lib: Lib, s: Session, fp: nat, meta: Output, out: TxOut, item: DisplayItem) {
    && item.amount == out.value <= MAX_MONEY && lib.isP2wpkh(out.script)
    && lib.address(out.script, s.network) == Some(item.address)
    && (item.isChange <==> EarnsChange(lib, s, fp, meta, out))
  }

  lemma ItemIsHonest(lib: Lib, s: Session, fp: nat, meta: Output, out: TxOut, total: u64)
    requires Item(lib, s, fp, meta, out, total).Ok?
    ensures Honest(lib, s, fp, meta, out, Item(lib, s, fp, meta, out, total).value.0)
    ensures Item(lib, s, fp, meta, out, total).value.1 == total + out.value
  {
    if |meta.origins| == 1 {
      assert meta.origins[0] in meta.origins;
    }
  }

  lemma {:induction false} ItemsAreHonest(lib: Lib, s: Session, fp: nat, p: Psbt, n: nat)
    requires n <= |p.outputs| == |p.tx.outputs| && Items(lib, s, fp, p, n).Ok?
    ensures var (items, total) := Items(lib, s, fp, p, n).value;
      && |items| == n && Total(items) == total
      && forall i :: 0 <= i < n ==> Honest(lib, s, fp, p.outputs[i], p.tx.outputs[i], items[i])
  {
    if n > 0 {
      ItemsAreHonest(lib, s, fp, p, n - 1);
      var (before, total) := Items(lib, s, fp, p, n - 1).value;
      ItemIsHonest(lib, s, fp, p.outputs[n - 1], p.tx.outputs[n - 1], total);
      var (items, _) := Items(lib, s, fp, p, n).value;
      assert items[..n - 1] == before;
    }
  }

  /**
   An accepted review balances and is honest: the displayed amounts and the fee add up to the input,
   the fee is bounded, every displayed address and amount is that of the transaction's output, and
   an output is marked as change exactly when a key of this very session, on branch 1 of its account
   with an index of at most 1000, pays it.
   */
  lemma AcceptedReviewIsHonest(lib: Lib, s: Session, bytes: seq<byte>)
    requires Reviewed(lib, s, bytes).Ok?
    ensures var r := Reviewed(lib, s, bytes).value;
      && lib.deserialize(bytes) == Some(r.psbt) && Master(lib, s).Some?
      && var fp := lib.fingerprint(Master(lib, s).value);
      && |r.psbt.inputs| == 1 && r.psbt.inputs[0].witnessUtxo.Some?
      && Total(r.outputs) + r.fee == r.psbt.inputs[0].witnessUtxo.value.value
      && r.fee <= MAX_FEE_SAT
      && 1 <= |r.outputs| <= 2 && |r.outputs| == |r.psbt.outputs| == |r.psbt.tx.outputs|
      && forall i :: 0 <= i < |r.outputs| ==>
           Honest(lib, s, fp, r.psbt.outputs[i], r.psbt.tx.outputs[i], r.outputs[i])
  {
    var p := lib.deserialize(bytes).value;
    ItemsAreHonest(lib, s, lib.fingerprint(Master(lib, s).value), p, |p.outputs|);
  }

  /** The input spends from the session's own key, unsigned and to be signed with SIGHASH_ALL. */
  lemma AcceptedInputIsOurs(lib: Lib, s: Session, bytes: seq<byte>)
    requires Reviewed(lib, s, bytes).Ok?
    ensures var r := Reviewed(lib, s, bytes).value;
      && |r.psbt.inputs| == 1
      && var input := r.psbt.inputs[0];
      && input.witnessUtxo.Some? && input.partialSigs == map[] && !input.finalScript
      && (input.sighashType.Some? ==> input.sighashType.value == SIGHASH_ALL)
      && PublicAt(lib, s, r.path) == Ok(r.key)
      && input.witnessUtxo.value.script == lib.p2wpkh(r.key, s.network)
      && lib.sighashAll(r.psbt.tx, input.witnessUtxo.value.script, input.witnessUtxo.value.value) == Some(r.sighash)
  {
  }

  // ----- exactly what is accepted -----

  /** An output this policy can show. */
  ghost predicate Showable(lib: Lib, s: Session, fp: nat, meta: Output, out: TxOut) {
    && out.value <= 2_100_000_000_000_000 && lib.isP2wpkh(out.script) && lib.address(out.script, s.network).Some?
    && |meta.origins| <= 1
    && forall o :: o in meta.origins && o.fingerprint == fp ==>
         PublicAt(lib, s, o.path) == Ok(o.key) && out.script == lib.p2wpkh(o.key, s.network)
  }

  function Spent(outs: seq<TxOut>, n: nat): nat
    requires n <= |outs|
  {
    if n == 0 then 0 else Spent(outs, n - 1) + outs[n - 1].value
  }

  /** The one input is ours and nothing about it is out of the ordinary. */
  ghost predicate OwnInput(lib: Lib, s: Session, fp: nat, p: Psbt)
    requires |p.inputs| == |p.tx.inputs| == 1
  {
    var input := p.inputs[0];
    && (input.sighashType.Some? ==> input.sighashType.value == SIGHASH_ALL)
    && !input.finalScript && input.partialSigs == map[] && |input.origins| == 1
    && var o := input.origins[0];
    && o.fingerprint == fp && PublicAt(lib, s, o.path) == Ok(o.key)
    && input.witnessUtxo.Some?
    && var utxo := input.witnessUtxo.value;
    && utxo.value <= 2_100_000_000_000_000 && utxo.script == lib.p2wpkh(o.key, s.network)
    && (input.previousTx.Some? ==>
          var prev, vout := input.previousTx.value, p.tx.inputs[0].vout;
          lib.txid(prev) == p.tx.inputs[0].txid && vout < |prev.outputs| && prev.outputs[vout] == utxo)
    && lib.sighashAll(p.tx, utxo.script, utxo.value).Some?
  }

  /** The policy, as one condition on the transaction. */
  ghost predicate Acceptable(lib: Lib, s: Session, p: Psbt) {
    && p.version == 0 && |p.inputs| == |p.tx.inputs| == 1 && 1 <= |p.outputs| == |p.tx.outputs| <= 2
    && Master(lib, s).Some?
    && var fp := lib.fingerprint(Master(lib, s).value);
    && OwnInput(lib, s, fp, p)
    && (forall i :: 0 <= i < |p.outputs| ==> Showable(lib, s, fp, p.outputs[i], p.tx.outputs[i]))
    && var spent := Spent(p.tx.outputs, |p.outputs|);
       spent <= p.inputs[0].witnessUtxo.value.value <= spent + 1_000_000
  }

  lemma ItemIffShowable(lib: Lib, s: Session, fp: nat, meta: Output, out: TxOut, total: u64)
    requires total <= MAX_MONEY
    ensures Item(lib, s, fp, meta, out, total).Ok? <==> Showable(lib, s, fp, meta, out)
  {
    if |meta.origins| == 1 {
      assert meta.origins[0] in meta.origins;
    }
  }

  lemma {:induction false} ItemsIffShowable(lib: Lib, s: Session, fp: nat, p: Psbt, n: nat)
    requires n <= |p.outputs| == |p.tx.outputs| && n <= 2
    ensures Items(lib, s, fp, p, n).Ok?
       <==> forall i :: 0 <= i < n ==> Showable(lib, s, fp, p.outputs[i], p.tx.outputs[i])
    ensures Items(lib, s, fp, p, n).Ok? ==>
      Items(lib, s, fp, p, n).value.1 == Spent(p.tx.outputs, n) <= n * MAX_MONEY
  {
    if n > 0 {
      ItemsIffShowable(lib, s, fp, p, n - 1);
      if Items(lib, s, fp, p, n - 1).Ok? {
        var total := Items(lib, s, fp, p, n - 1).value.1;
        ItemIffShowable(lib, s, fp, p.outputs[n - 1], p.tx.outputs[n - 1], total);
      }
    }
  }

  lemma InputIffOwn(lib: Lib, s: Session, fp: nat, p: Psbt)
    requires ShapeFailure(p).None?
    ensures OwnInput(lib, s, fp, p)
       <==> InputFailure(lib, s, fp, p).None?
            && var utxo := p.inputs[0].witnessUtxo.value; lib.sighashAll(p.tx, utxo.script, utxo.value).Some?
  {
  }

  /** A transaction is accepted if and only if it meets the policy. */
  lemma AcceptedIff(lib: Lib, s: Session, bytes: seq<byte>)
    ensures Reviewed(lib, s, bytes).Ok?
       <==> 1 <= |bytes| <= 4096 && lib.deserialize(bytes).Some?
            && Acceptable(lib, s, lib.deserialize(bytes).value)
  {
    if lib.deserialize(bytes).Some? && Master(lib, s).Some? {
      var p, fp := lib.deserialize(bytes).value, lib.fingerprint(Master(lib, s).value);
      if ShapeFailure(p).None? {
        InputIffOwn(lib, s, fp, p);
        ItemsIffShowable(lib, s, fp, p, |p.outputs|);
      }
    }
  }

  /** The path of an account of BIP 84 for the other coin type, whatever comes behind. */
  ghost predicate OtherCoin(s: Session, path: Path) {
    |path| == 5 && path[0] == 0x8000_0054 && path[1] == (if s.network == Bitcoin then 0x8000_0001 else 0x8000_0000)
  }

  lemma {:induction false} OutputsHaveNoNetwork(lib: Lib, s: Session, fp: nat, p: Psbt, n: nat)
    requires n <= |p.outputs| == |p.tx.outputs|
    ensures Items(lib, s, fp, p, n) != Err(NetworkMismatch)
  {
    if n > 0 { OutputsHaveNoNetwork(lib, s, fp, p, n - 1); }
  }

  /** When the player is told that the transaction is for the other network. */
  lemma NetworkMismatchIff(lib: Lib, s: Session, bytes: seq<byte>)
    ensures Reviewed(lib, s, bytes) == Err(NetworkMismatch)
       <==> 1 <= |bytes| <= 4096 && lib.deserialize(bytes).Some? && Master(lib, s).Some?
            && var p := lib.deserialize(bytes).value;
            && p.version == 0 && |p.inputs| == |p.tx.inputs| == 1 && 1 <= |p.outputs| == |p.tx.outputs| <= 2
            && var input := p.inputs[0];
            && (input.sighashType.Some? ==> input.sighashType.value == SIGHASH_ALL)
            && !input.finalScript && input.partialSigs == map[] && |input.origins| == 1
            && OtherCoin(s, input.origins[0].path)
  {
    if lib.deserialize(bytes).Some? && Master(lib, s).Some? {
      var p := lib.deserialize(bytes).value;
      if ShapeFailure(p).None? { OutputsHaveNoNetwork(lib, s, lib.fingerprint(Master(lib, s).value), p, |p.outputs|); }
    }
  }

  // ----- what signing means -----

  /** Signing this PSBT with the node the path leads to in this session gives this output. */
  ghost predicate SignsWith(lib: Lib, s: Session, b: Binding, p: Psbt, node: Node, out: SignedPsbt) {
    && lib.deserialize(b.bytes) == Some(p) && |p.inputs| > 0 && |p.outputs| > 0
    && p.inputs[0].witnessUtxo.Some?
    && var utxo := p.inputs[0].witnessUtxo.value;
    && lib.sighashAll(p.tx, utxo.script, utxo.value) == Some(b.sighash)
    && LeadsTo(lib, s, b.path, node)
    && var sig := lib.sign(node, b.sighash);
       lib.verify(b.sighash, sig, b.key)
       && out == SignedPsbt(lib.serialize(WithSignature(p, b.key, sig)), lib.txid(p.tx))
  }

  /** What is signed, and with which key: exactly the bound digest, by the node the bound path leads to. */
  lemma SignedIff(lib: Lib, s: Session, b: Binding, out: SignedPsbt)
    ensures Signed(lib, s, b) == Ok(out) <==> !s.locked && exists p, node :: SignsWith(lib, s, b, p, node, out)
  {
    if Signed(lib, s, b) == Ok(out) {
      var p, node := lib.deserialize(b.bytes).value, Derived(lib, Master(lib, s).value, b.path).value;
      DerivedIffLeads(lib, s, b.path, node);
      assert SignsWith(lib, s, b, p, node, out);
    }
    if !s.locked && exists p, node :: SignsWith(lib, s, b, p, node, out) {
      var p, node :| SignsWith(lib, s, b, p, node, out);
      DerivedIffLeads(lib, s, b.path, node);
    }
  }

  /**
   Signing an accepted review, in any session, adds one signature under the reviewed key and changes
   nothing else, and the signature verifies for the digest that was reviewed.
   */
  lemma SigningAddsOneSignature(lib: Lib, s: Session, t: Session, bytes: seq<byte>)
    requires Lawful(lib) && Reviewed(lib, s, bytes).Ok?
    requires Signed(lib, t, BindingOf(lib, Reviewed(lib, s, bytes).value)).Ok?
    ensures var r := Reviewed(lib, s, bytes).value;
      var signed := Signed(lib, t, BindingOf(lib, r)).value;
      && !t.locked && |r.psbt.inputs| == 1
      && exists sig :: && lib.verify(r.sighash, sig, r.key)
                       && lib.deserialize(signed.bytes) == Some(WithSignature(r.psbt, r.key, sig))
                       && WithSignature(r.psbt, r.key, sig)
                          == r.psbt.(inputs := [r.psbt.inputs[0].(partialSigs := map[r.key := sig])])
                       && (exists node :: LeadsTo(lib, t, r.path, node) && sig == lib.sign(node, r.sighash))
                       && signed.txid == lib.txid(r.psbt.tx)
  {
    AcceptedInputIsOurs(lib, s, bytes);
    var r := Reviewed(lib, s, bytes).value;
    var node := Derived(lib, Master(lib, t).value, r.path).value;
    var sig := lib.sign(node, r.sighash);
    assert ReadsBack(lib, r.psbt) && ReadsBack(lib, WithSignature(r.psbt, r.key, sig));
    DerivedIffLeads(lib, t, r.path, node);
    assert LeadsTo(lib, t, r.path, node) && sig == lib.sign(node, r.sighash);
  }

  /** Every accepted review can be signed by the session that made it. */
  lemma AcceptedReviewSigns(lib: Lib, s: Session, bytes: seq<byte>)
    requires Lawful(lib) && Reviewed(lib, s, bytes).Ok?
    ensures Signed(lib, s, BindingOf(lib, Reviewed(lib, s, bytes).value)).Ok?
  {
    AcceptedInputIsOurs(lib, s, bytes);
    var r := Reviewed(lib, s, bytes).value;
    var node := Derived(lib, Master(lib, s).value, r.path).value;
    assert lib.verify(r.sighash, lib.sign(node, r.sighash), lib.publicKey(node));
    assert ReadsBack(lib, r.psbt);
  }

  /** A transaction whose digest is not the reviewed one is never signed. */
  lemma DriftIsRefused(lib: Lib, s: Session, b: Binding, p: Psbt)
    requires lib.deserialize(b.bytes) == Some(p) && Signed(lib, s, b).Ok?
    ensures |p.inputs| > 0 && p.inputs[0].witnessUtxo.Some?
    ensures var utxo := p.inputs[0].witnessUtxo.value;
      lib.sighashAll(p.tx, utxo.script, utxo.value) == Some(b.sighash)
    ensures !s.locked
  {
  }

  /**
   A signed transaction is not accepted for review again by any session: it is too large, the
   session is locked, or it is already signed.
   */
  lemma SignedIsNotReviewedAgain(lib: Lib, s: Session, t: Session, u: Session, bytes: seq<byte>)
    requires Lawful(lib) && Reviewed(lib, s, bytes).Ok?
    requires Signed(lib, t, BindingOf(lib, Reviewed(lib, s, bytes).value)).Ok?
    ensures var signed := Signed(lib, t, BindingOf(lib, Reviewed(lib, s, bytes).value)).value;
      Reviewed(lib, u, signed.bytes)
        == Err(if |signed.bytes| == 0 || |signed.bytes| > MAX_PSBT_BYTES then SizeLimit
               else if Master(lib, u).None? then SeedLocked else AlreadySigned)
  {
    AcceptedInputIsOurs(lib, s, bytes);
    SigningAddsOneSignature(lib, s, t, bytes);
    var r := Reviewed(lib, s, bytes).value;
    var signed := Signed(lib, t, BindingOf(lib, r)).value;
    var sig :| lib.deserialize(signed.bytes) == Some(WithSignature(r.psbt, r.key, sig));
    var p := WithSignature(r.psbt, r.key, sig);
    assert r.key in p.inputs[0].partialSigs;
    assert ShapeFailure(p) == ShapeFailure(r.psbt) == None;
  }

  /** A locked session reviews and signs nothing. */
  lemma LockedRefuses(lib: Lib, s: Session, bytes: seq<byte>, b: Binding)
    requires s.locked
    ensures Reviewed(lib, s, bytes).Err? && Signed(lib, s, b) == Err(Locked)
  {
  }
}
