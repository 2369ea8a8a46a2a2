/**
 Proof-of-work mining. The hash is an arbitrary function of the fields the code feeds to it; nothing
 is assumed of it but that its values are long enough to carry the required zeros.
 */
module PowChain {
  import opened Wrappers

  type Hash = string

  /** The hashed part of a block; the miner's name is not hashed. */
  datatype Content<T> = Content(index: int, timestamp: int, txs: seq<T>, prevHash: Hash, nonce: int)

  datatype Block<T> = Block(content: Content<T>, hash: Hash, miner: string)

  type HashFn<!T> = Content<T> -> Hash

  ghost predicate LongEnough<T(!new)>(hash: HashFn<T>, difficulty: nat) {
    forall c: Content<T> :: difficulty <= |hash(c)|
  }

  /** Enough leading zeros. */
  predicate Solves(h: Hash, difficulty: nat) {
    difficulty <= |h| && forall i :: 0 <= i < difficulty ==> h[i] == '0'
  }

  predicate Linked<T>(hash: HashFn<T>, difficulty: nat, prev: Block<T>, b: Block<T>) {
    b.hash == hash(b.content) && b.content.prevHash == prev.hash && Solves(b.hash, difficulty)
  }

  /** Everything the validator looks at; the first block is taken on trust. */
  predicate ValidChain<T>(hash: HashFn<T>, difficulty: nat, chain: seq<Block<T>>) {
    forall i :: 0 < i < |chain| ==> Linked(hash, difficulty, chain[i - 1], chain[i])
  }

  /** A chain is accepted iff each block after the first carries its own hash, links back, and has the zeros. */
  lemma ValidMeans<T>(hash: HashFn<T>, difficulty: nat, chain: seq<Block<T>>)
    ensures ValidChain(hash, difficulty, chain) <==>
            && (forall i :: 0 < i < |chain| ==> chain[i].hash == hash(chain[i].content))
            && (forall i :: 0 < i < |chain| ==> chain[i].content.prevHash == chain[i - 1].hash)
            && (forall i :: 0 < i < |chain| ==>
                  difficulty <= |chain[i].hash| && forall k :: 0 <= k < difficulty ==> chain[i].hash[k] == '0')
  {
    if ValidChain(hash, difficulty, chain) {
      forall i | 0 < i < |chain|
        ensures chain[i].hash == hash(chain[i].content) && chain[i].content.prevHash == chain[i - 1].hash
        ensures Solves(chain[i].hash, difficulty)
      {
        assert Linked(hash, difficulty, chain[i - 1], chain[i]);
      }
    } else {
      var i :| 0 < i < |chain| && !Linked(hash, difficulty, chain[i - 1], chain[i]);
    }
  }

  function Candidate<T>(tip: Block<T>, txs: seq<T>, timestamp: int, nonce: int): Content<T> {
    Content(tip.content.index + 1, timestamp, txs, tip.hash, nonce)
  }

  function Mined<T>(hash: HashFn<T>, tip: Block<T>, txs: seq<T>, timestamp: int, nonce: int, miner: string): Block<T> {
    Block(Candidate(tip, txs, timestamp, nonce), hash(Candidate(tip, txs, timestamp, nonce)), miner)
  }

  function Tip<T>(chain: seq<Block<T>>): Block<T>
    requires chain != []
  {
    chain[|chain| - 1]
  }

  /** This nonce solves the block that would carry these transactions on this chain. */
  predicate Wins<T>(hash: HashFn<T>, difficulty: nat, chain: seq<Block<T>>, txs: seq<T>, timestamp: int, nonce: int)
    requires chain != []
  {
    Solves(hash(Candidate(Tip(chain), txs, timestamp, nonce)), difficulty)
  }

  /** That is: the hash of the block with that nonce, and its other fields as they must be, has the zeros. */
  lemma WinsMeans<T>(hash: HashFn<T>, difficulty: nat, chain: seq<Block<T>>, txs: seq<T>, timestamp: int, nonce: int,
                     c: Content<T>)
    requires chain != [] && c.index == chain[|chain| - 1].content.index + 1 && c.prevHash == chain[|chain| - 1].hash
    requires c.timestamp == timestamp && c.txs == txs && c.nonce == nonce
    ensures Wins(hash, difficulty, chain, txs, timestamp, nonce) <==>
            difficulty <= |hash(c)| && forall i :: 0 <= i < difficulty ==> hash(c)[i] == '0'
  {
  }

  /**
   The block that carries these transactions on this tip: each hashed field is what it should be, its hash is
   that of its content, and its nonce is the first below `patience` whose hash has the zeros.
   */
  ghost predicate MinedOn<T(!new)>(hash: HashFn<T>, difficulty: nat, tip: Block<T>, txs: seq<T>, timestamp: int,
                                   miner: string, patience: nat, b: Block<T>) {
    && b.content.index == tip.content.index + 1 && b.content.timestamp == timestamp
    && b.content.txs == txs && b.content.prevHash == tip.hash
    && b.miner == miner && b.hash == hash(b.content)
    && difficulty <= |b.hash| && (forall i :: 0 <= i < difficulty ==> b.hash[i] == '0')
    && 0 <= b.content.nonce < patience
    && forall n: nat :: n < b.content.nonce ==> !Solves(hash(b.content.(nonce := n)), difficulty)
  }

  lemma AppendKeepsValid<T>(hash: HashFn<T>, difficulty: nat, chain: seq<Block<T>>, b: Block<T>)
    requires ValidChain(hash, difficulty, chain)
    requires chain != [] ==> Linked(hash, difficulty, Tip(chain), b)
    ensures ValidChain(hash, difficulty, chain + [b])
  {
    var longer := chain + [b];
    forall i | 0 < i < |longer|
      ensures Linked(hash, difficulty, longer[i - 1], longer[i])
    {
      assert i < |chain| ==> longer[i - 1] == chain[i - 1] && longer[i] == chain[i];
    }
  }

  class Blockchain<T(==, !new)> {
    const hash: HashFn<T>
    const difficulty: nat
    var chain: seq<Block<T>>
    var mempool: seq<T>
    var mining: bool
    ghost var submitted: seq<T>  // every transaction ever added, in order

    ghost predicate Valid()
      reads this
    {
      LongEnough(hash, difficulty) && chain != [] && ValidChain(hash, difficulty, chain)
    }

    /** The first block's stored hash is that of a blank block, not of the block itself. */
    constructor (hash: HashFn<T>, timestamp: int)
      requires LongEnough(hash, 4)
      ensures Valid() && this.hash == hash && difficulty == 4 && mempool == [] && !mining
      ensures |chain| == 1 && chain[0].content == Content(0, timestamp, [], "0", 0)
      ensures chain[0].hash == hash(Content(0, 0, [], "0", 0)) && submitted == []
    {
      this.hash, difficulty := hash, 4;
      chain := [Block(Content(0, timestamp, [], "0", 0), hash(Content(0, 0, [], "0", 0)), "")];
      mempool, mining, submitted := [], false, [];
    }

    /** `None` is the panic on a hash shorter than the difficulty. */
    method IsValidHash(h: Hash) returns (r: Option<bool>)
      ensures r.None? <==> |h| < difficulty
      ensures r.Some? ==> (r.value <==> forall i :: 0 <= i < difficulty ==> h[i] == '0')
    {
      var prefix := "";
      for i := 0 to difficulty
        invariant |prefix| == i && forall j :: 0 <= j < i ==> prefix[j] == '0'
      {
        prefix := prefix + "0";
      }
      if |h| < difficulty {
        return None;
      }
      var ok := h[..difficulty] == prefix;
      assert ok <==> forall i :: 0 <= i < difficulty ==> h[..difficulty][i] == prefix[i];
      return Some(ok);
    }

    method AddTransaction(tx: T)
      modifies this`mempool, this`submitted
      ensures mempool == old(mempool) + [tx] && submitted == old(submitted) + [tx]
    {
      mempool := mempool + [tx];
      submitted := submitted + [tx];
    }

    /** Other callers add transactions while the miner is at work. */
    method Interfere()
      modifies this`mempool, this`submitted
      ensures old(submitted) <= submitted && mempool == old(mempool) + submitted[|old(submitted)|..]
    {
      var added: seq<T> := *;
      mempool := mempool + added;
      submitted := submitted + added;
    }

    /** The search from zero upwards, given up after `patience` attempts; the nonce found is the least. */
    method Search(txs: seq<T>, timestamp: int, patience: nat) returns (found: bool, nonce: nat)
      requires LongEnough(hash, difficulty) && chain != []
      modifies this`mempool, this`submitted
      ensures old(submitted) <= submitted && mempool == old(mempool) + submitted[|old(submitted)|..]
      ensures found <==> exists n: nat :: n < patience && Wins(hash, difficulty, chain, txs, timestamp, n)
      ensures found ==> nonce < patience && Wins(hash, difficulty, chain, txs, timestamp, nonce)
      ensures found ==> forall n: nat :: n < nonce ==> !Wins(hash, difficulty, chain, txs, timestamp, n)
    {
      nonce := 0;
      while nonce < patience
        invariant nonce <= patience
        invariant old(submitted) <= submitted && mempool == old(mempool) + submitted[|old(submitted)|..]
        invariant forall n: nat :: n < nonce ==> !Wins(hash, difficulty, chain, txs, timestamp, n)
      {
        Interfere();
        var solved := IsValidHash(hash(Candidate(Tip(chain), txs, timestamp, nonce)));
        if solved.value {
          assert Wins(hash, difficulty, chain, txs, timestamp, nonce);
          return true, nonce;
        }
        nonce := nonce + 1;
      }
      return false, nonce;
    }

    /**
     Refused while another call is mining or with nothing to mine. Otherwise the whole mempool is taken;
     either it ends up in one new block on top of the chain, or the call is cancelled and it is gone.
     What waits afterwards is exactly what others submitted meanwhile.
     */
    method MineBlock(miner: string, timestamp: int, patience: nat) returns (mined: bool)
      requires Valid()
      modifies this
      ensures Valid() && mining == old(mining)
      ensures old(mining) || old(mempool) == [] ==> !mined && mempool == old(mempool)
      ensures old(submitted) <= submitted
      ensures !old(mining) && old(mempool) != [] ==> mempool == submitted[|old(submitted)|..]
      ensures !old(mining) && old(mempool) != [] ==>
                (mined <==>
                   exists n: nat :: n < patience && Wins(hash, difficulty, old(chain), old(mempool), timestamp, n))
      ensures !mined ==> chain == old(chain)
      ensures mined ==>
                && |chain| == |old(chain)| + 1 && chain[..|old(chain)|] == old(chain)
                && MinedOn(hash, difficulty, old(chain)[|old(chain)| - 1], old(mempool), timestamp, miner, patience,
                           chain[|old(chain)|])
    {
      if mining {
        return false;
      }
      mining := true;
      if mempool == [] {
        mining := false;
        return false;
      }
      var tip := Tip(chain);
      var txs := mempool;
      mempool := [];
      var found, nonce := Search(txs, timestamp, patience);
      if found {
        var block := Mined(hash, tip, txs, timestamp, nonce, miner);
        AppendKeepsValid(hash, difficulty, chain, block);
        forall n: nat | n < nonce
          ensures !Solves(hash(block.content.(nonce := n)), difficulty)
        {
          assert !Wins(hash, difficulty, chain, txs, timestamp, n);
        }
        chain := chain + [block];
      }
      mining := false;
      return found;
    }

    method ValidateChain() returns (ok: bool)
      requires LongEnough(hash, difficulty)
      ensures ok <==> ValidChain(hash, difficulty, chain)
    {
      var i := 1;
      while i < |chain|
        invariant 1 <= i && (chain == [] || i <= |chain|)
        invariant forall j :: 0 < j < i && j < |chain| ==> Linked(hash, difficulty, chain[j - 1], chain[j])
      {
        var current, prev := chain[i], chain[i - 1];
        if current.hash != hash(current.content) || current.content.prevHash != prev.hash {
          assert !Linked(hash, difficulty, chain[i - 1], chain[i]);
          return false;
        }
        var solved := IsValidHash(current.hash);
        if !solved.value {
          assert !Linked(hash, difficulty, chain[i - 1], chain[i]);
          return false;
        }
        i := i + 1;
      }
      return true;
    }
  }

  // ---------------------------------------------------------------- what the hashes protect

  /** Two different contents with one hash. */
  predicate Collide<T(==)>(hash: HashFn<T>, c: Content<T>, d: Content<T>) {
    c != d && hash(c) == hash(d)
  }

  /** The block `k` places before the tip. */
  function FromEnd<T>(chain: seq<Block<T>>, k: nat): Block<T>
    requires k < |chain|
  {
    chain[|chain| - 1 - k]
  }

  /**
   Two valid chains that end in the same hash hold the same hashed content block for block, counted
   from the end, down to the shorter one's first block, or else blocks at one and the same distance
   from the end, and no farther than the one looked at, collide.
   */
  lemma {:induction false} TipPinsHistory<T(!new)>(hash: HashFn<T>, difficulty: nat, a: seq<Block<T>>,
                                                   b: seq<Block<T>>, k: nat)
    requires ValidChain(hash, difficulty, a) && ValidChain(hash, difficulty, b)
    requires k + 1 < |a| && k + 1 < |b| && a[|a| - 1].hash == b[|b| - 1].hash
    ensures || (exists j: nat :: j <= k && Collide(hash, FromEnd(a, j).content, FromEnd(b, j).content))
            || (FromEnd(a, k).content == FromEnd(b, k).content && FromEnd(a, k + 1).hash == FromEnd(b, k + 1).hash)
  {
    if k > 0 {
      TipPinsHistory(hash, difficulty, a, b, k - 1);
    }
    var x, y := |a| - 1 - k, |b| - 1 - k;
    assert Linked(hash, difficulty, a[x - 1], a[x]) && Linked(hash, difficulty, b[y - 1], b[y]);
    assert FromEnd(a, k) == a[x] && FromEnd(b, k) == b[y];
    if FromEnd(a, k).hash == FromEnd(b, k).hash && a[x].content != b[y].content {
      assert Collide(hash, FromEnd(a, k).content, FromEnd(b, k).content);
    }
  }

  /**
   Putting another block in the place of one below the tip goes unnoticed exactly when it carries the
   same hash and the same link back, and its content really has that hash: different content then
   collides with the very content it replaces.
   */
  lemma RewriteIsNoticed<T(!new)>(hash: HashFn<T>, difficulty: nat, chain: seq<Block<T>>, i: nat, b: Block<T>)
    requires ValidChain(hash, difficulty, chain) && 0 < i < |chain| - 1
    ensures ValidChain(hash, difficulty, chain[i := b])
       <==> && b.hash == chain[i].hash && b.content.prevHash == chain[i].content.prevHash
            && (b.content == chain[i].content || Collide(hash, b.content, chain[i].content))
  {
    var forged := chain[i := b];
    assert Linked(hash, difficulty, chain[i - 1], chain[i]) && Linked(hash, difficulty, chain[i], chain[i + 1]);
    if ValidChain(hash, difficulty, forged) {
      assert Linked(hash, difficulty, forged[i - 1], forged[i]) && Linked(hash, difficulty, forged[i], forged[i + 1]);
    } else {
      var j :| 0 < j < |forged| && !Linked(hash, difficulty, forged[j - 1], forged[j]);
      assert Linked(hash, difficulty, chain[j - 1], chain[j]);
    }
  }

  // ---------------------------------------------------------------- all runs

  /** Where one call of the miner stands. */
  datatype Pc<T> =
    | Idle
    | Claimed
    | Searching(miner: string, txs: seq<T>, prev: Block<T>, timestamp: int, nonce: int)
    | Found(txs: seq<T>, block: Block<T>)
    | Leaving

  type Thread = nat

  /** `added` and `lost` record every transaction submitted and every one dropped by a cancelled call. */
  datatype State<T> = State(
    chain: seq<Block<T>>, mempool: seq<T>, mining: bool, pc: map<Thread, Pc<T>>,
    added: multiset<T>, lost: multiset<T>)

  datatype Event<T> =
    | Add(tx: T)
    | Claim
    | Take(miner: string, timestamp: int)
    | Try
    | Cancel
    | Append
    | Leave

  predicate Init<T(==)>(s: State<T>) {
    && |s.chain| == 1 && s.chain[0].content.txs == [] && s.chain[0].content.index == 0
    && s.mempool == [] && !s.mining
    && (forall p :: p in s.pc ==> s.pc[p] == Idle)
    && s.added == multiset{} && s.lost == multiset{}
  }

  predicate Enabled<T(==)>(s: State<T>, p: Thread, e: Event<T>) {
    && p in s.pc && s.chain != []
    && match e
       case Add(_) => true
       case Claim => s.pc[p] == Idle
       case Take(_, _) => s.pc[p] == Claimed
       case Try => s.pc[p].Searching?
       case Cancel => s.pc[p].Searching?
       case Append => s.pc[p].Found?
       case Leave => s.pc[p] == Leaving
  }

  function At<T>(s: State<T>, p: Thread, c: Pc<T>): State<T> {
    s.(pc := s.pc[p := c])
  }

  function Apply<T(==)>(hash: HashFn<T>, difficulty: nat, s: State<T>, p: Thread, e: Event<T>): State<T>
    requires Enabled(s, p, e)
  {
    match e
    case Add(tx) => s.(mempool := s.mempool + [tx], added := s.added + multiset{tx})
    case Claim => if s.mining then s else At(s.(mining := true), p, Claimed)
    case Take(miner, timestamp) =>
      if s.mempool == [] then At(s, p, Leaving)
      else At(s.(mempool := []), p, Searching(miner, s.mempool, Tip(s.chain), timestamp, 0))
    case Try =>
      var c := s.pc[p];
      var block := Mined(hash, c.prev, c.txs, c.timestamp, c.nonce, c.miner);
      if Solves(block.hash, difficulty) then At(s, p, Found(c.txs, block))
      else At(s, p, c.(nonce := c.nonce + 1))
    case Cancel => At(s.(lost := s.lost + multiset(s.pc[p].txs)), p, Leaving)
    case Append => At(s.(chain := s.chain + [s.pc[p].block]), p, Leaving)
    case Leave => At(s.(mining := false), p, Idle)
  }

  ghost predicate Next<T(!new)>(hash: HashFn<T>, difficulty: nat, s: State<T>, s': State<T>) {
    exists p, e :: Enabled(s, p, e) && s' == Apply(hash, difficulty, s, p, e)
  }

  ghost predicate IsRun<T(!new)>(hash: HashFn<T>, difficulty: nat, run: seq<State<T>>) {
    && |run| > 0
    && Init(run[0])
    && forall i :: 0 < i < |run| ==> Next(hash, difficulty, run[i - 1], run[i])
  }

  function InChain<T>(chain: seq<Block<T>>): multiset<T> {
    if chain == [] then multiset{}
    else InChain(chain[..|chain| - 1]) + multiset(chain[|chain| - 1].content.txs)
  }

  function Carried<T>(c: Pc<T>): multiset<T> {
    match c
    case Searching(_, txs, _, _, _) => multiset(txs)
    case Found(txs, _) => multiset(txs)
    case _ => multiset{}
  }

  /** Of all threads only `p` is inside the guarded section. */
  ghost predicate Alone<T>(s: State<T>, p: Thread) {
    p in s.pc && s.pc[p] != Idle && forall q :: q in s.pc && q != p ==> s.pc[q] == Idle
  }

  /** A block under construction fits the chain as it is now. */
  ghost predicate Fits<T>(hash: HashFn<T>, difficulty: nat, s: State<T>, c: Pc<T>)
    requires s.chain != []
  {
    var tip := Tip(s.chain);
    match c
    case Searching(_, txs, prev, _, _) => prev == tip && txs != []
    case Found(txs, block) =>
      Linked(hash, difficulty, tip, block) && block.content.txs == txs && block.content.index == tip.content.index + 1
    case _ => true
  }

  ghost predicate Balanced<T>(s: State<T>, held: multiset<T>) {
    s.added == multiset(s.mempool) + held + InChain(s.chain) + s.lost
  }

  /** The flag is down and nobody mines, or it is up and exactly one thread does. */
  ghost predicate Inv<T>(hash: HashFn<T>, difficulty: nat, s: State<T>) {
    && s.chain != [] && ValidChain(hash, difficulty, s.chain)
    && (forall i :: 0 <= i < |s.chain| ==> s.chain[i].content.index == i)
    && (!s.mining ==> (forall p :: p in s.pc ==> s.pc[p] == Idle) && Balanced(s, multiset{}))
    && (s.mining ==> exists p :: Alone(s, p) && Fits(hash, difficulty, s, s.pc[p]) && Balanced(s, Carried(s.pc[p])))
  }

  /** The same thread stays alone inside; what it holds may change. */
  lemma Stays<T>(hash: HashFn<T>, difficulty: nat, s: State<T>, p: Thread)
    requires s.chain != [] && ValidChain(hash, difficulty, s.chain) && s.mining
    requires forall i :: 0 <= i < |s.chain| ==> s.chain[i].content.index == i
    requires Alone(s, p) && Fits(hash, difficulty, s, s.pc[p]) && Balanced(s, Carried(s.pc[p]))
    ensures Inv(hash, difficulty, s)
  {
  }

  lemma AddKeepsBalance<T>(s: State<T>, tx: T, held: multiset<T>)
    requires Balanced(s, held)
    ensures Balanced(s.(mempool := s.mempool + [tx], added := s.added + multiset{tx}), held)
  {
  }

  lemma AddKeepsInv<T>(hash: HashFn<T>, difficulty: nat, s: State<T>, p: Thread, tx: T)
    requires Inv(hash, difficulty, s) && Enabled(s, p, Add(tx))
    ensures Inv(hash, difficulty, Apply(hash, difficulty, s, p, Add(tx)))
  {
    var s' := Apply(hash, difficulty, s, p, Add(tx));
    if s.mining {
      var q :| Alone(s, q) && Fits(hash, difficulty, s, s.pc[q]) && Balanced(s, Carried(s.pc[q]));
      AddKeepsBalance(s, tx, Carried(s.pc[q]));
      assert Alone(s', q);
      Stays(hash, difficulty, s', q);
    } else {
      AddKeepsBalance(s, tx, multiset{});
    }
  }

  lemma AppendKeepsInv<T>(hash: HashFn<T>, difficulty: nat, s: State<T>, p: Thread)
    requires Inv(hash, difficulty, s) && Enabled(s, p, Append)
    ensures Inv(hash, difficulty, Apply(hash, difficulty, s, p, Append))
  {
    var s' := Apply(hash, difficulty, s, p, Append);
    Inside(hash, difficulty, s, p);
    AppendKeepsValid(hash, difficulty, s.chain, s.pc[p].block);
    AppendKeepsBalance(s, s', s.pc[p].block);
    MoveKeepsAlone(s, s', p, Leaving);
    Stays(hash, difficulty, s', p);
  }

  lemma AppendKeepsBalance<T>(s: State<T>, s': State<T>, b: Block<T>)
    requires Balanced(s, multiset(b.content.txs)) && s'.chain == s.chain + [b]
    requires s'.mempool == s.mempool && s'.added == s.added && s'.lost == s.lost
    ensures Balanced(s', multiset{})
  {
    assert s'.chain[..|s.chain|] == s.chain;
  }

  lemma Inside<T>(hash: HashFn<T>, difficulty: nat, s: State<T>, p: Thread)
    requires Inv(hash, difficulty, s) && p in s.pc && s.pc[p] != Idle
    ensures s.mining && Alone(s, p) && Fits(hash, difficulty, s, s.pc[p]) && Balanced(s, Carried(s.pc[p]))
  {
  }

  lemma MoveKeepsAlone<T>(s: State<T>, s': State<T>, p: Thread, c: Pc<T>)
    requires p in s.pc && (forall q :: q in s.pc && q != p ==> s.pc[q] == Idle)
    requires c != Idle && s'.pc == s.pc[p := c]
    ensures Alone(s', p)
  {
  }

  lemma ClaimKeepsInv<T>(hash: HashFn<T>, difficulty: nat, s: State<T>, p: Thread)
    requires Inv(hash, difficulty, s) && Enabled(s, p, Claim)
    ensures Inv(hash, difficulty, Apply(hash, difficulty, s, p, Claim))
  {
    if !s.mining {
      var s' := Apply(hash, difficulty, s, p, Claim);
      MoveKeepsAlone(s, s', p, Claimed);
      Stays(hash, difficulty, s', p);
    }
  }

  lemma TakeKeepsInv<T>(hash: HashFn<T>, difficulty: nat, s: State<T>, p: Thread, miner: string, timestamp: int)
    requires Inv(hash, difficulty, s) && Enabled(s, p, Take(miner, timestamp))
    ensures Inv(hash, difficulty, Apply(hash, difficulty, s, p, Take(miner, timestamp)))
  {
    var s' := Apply(hash, difficulty, s, p, Take(miner, timestamp));
    Inside(hash, difficulty, s, p);
    if s.mempool == [] {
      MoveKeepsAlone(s, s', p, Leaving);
    } else {
      MoveKeepsAlone(s, s', p, Searching(miner, s.mempool, Tip(s.chain), timestamp, 0));
      TakeKeepsBalance(s, s');
    }
    Stays(hash, difficulty, s', p);
  }

  lemma TakeKeepsBalance<T>(s: State<T>, s': State<T>)
    requires Balanced(s, multiset{}) && s'.chain == s.chain && s'.added == s.added && s'.lost == s.lost
    requires s'.mempool == []
    ensures Balanced(s', multiset(s.mempool))
  {
  }

  lemma TryKeepsInv<T>(hash: HashFn<T>, difficulty: nat, s: State<T>, p: Thread)
    requires Inv(hash, difficulty, s) && Enabled(s, p, Try)
    ensures Inv(hash, difficulty, Apply(hash, difficulty, s, p, Try))
  {
    var s' := Apply(hash, difficulty, s, p, Try);
    Inside(hash, difficulty, s, p);
    MoveKeepsAlone(s, s', p, s'.pc[p]);
    Stays(hash, difficulty, s', p);
  }

  lemma CancelKeepsInv<T>(hash: HashFn<T>, difficulty: nat, s: State<T>, p: Thread)
    requires Inv(hash, difficulty, s) && Enabled(s, p, Cancel)
    ensures Inv(hash, difficulty, Apply(hash, difficulty, s, p, Cancel))
  {
    var s' := Apply(hash, difficulty, s, p, Cancel);
    Inside(hash, difficulty, s, p);
    MoveKeepsAlone(s, s', p, Leaving);
    Stays(hash, difficulty, s', p);
  }

  lemma LeaveKeepsInv<T>(hash: HashFn<T>, difficulty: nat, s: State<T>, p: Thread)
    requires Inv(hash, difficulty, s) && Enabled(s, p, Leave)
    ensures Inv(hash, difficulty, Apply(hash, difficulty, s, p, Leave))
  {
    Inside(hash, difficulty, s, p);
  }

  lemma StepKeepsInv<T>(hash: HashFn<T>, difficulty: nat, s: State<T>, p: Thread, e: Event<T>)
    requires Inv(hash, difficulty, s) && Enabled(s, p, e)
    ensures Inv(hash, difficulty, Apply(hash, difficulty, s, p, e))
  {
    match e
    case Add(tx) => AddKeepsInv(hash, difficulty, s, p, tx);
    case Claim => ClaimKeepsInv(hash, difficulty, s, p);
    case Take(miner, timestamp) => TakeKeepsInv(hash, difficulty, s, p, miner, timestamp);
    case Try => TryKeepsInv(hash, difficulty, s, p);
    case Cancel => CancelKeepsInv(hash, difficulty, s, p);
    case Append => AppendKeepsInv(hash, difficulty, s, p);
    case Leave => LeaveKeepsInv(hash, difficulty, s, p);
  }

  lemma {:induction false} RunKeepsInv<T(!new)>(hash: HashFn<T>, difficulty: nat, run: seq<State<T>>, i: nat)
    requires IsRun(hash, difficulty, run) && i < |run|
    ensures Inv(hash, difficulty, run[i])
  {
    if i == 0 {
      assert run[0].chain[..0] == [];
    } else {
      RunKeepsInv(hash, difficulty, run, i - 1);
      var s := run[i - 1];
      assert Next(hash, difficulty, s, run[i]);
      var p, e :| Enabled(s, p, e) && run[i] == Apply(hash, difficulty, s, p, e);
      StepKeepsInv(hash, difficulty, s, p, e);
    }
  }

  // ---------------------------------------------------------------- main results

  /** However many callers mine, add and cancel, the validator accepts the chain at every moment. */
  lemma ChainStaysValid<T(!new)>(hash: HashFn<T>, difficulty: nat, run: seq<State<T>>, i: nat)
    requires IsRun(hash, difficulty, run) && i < |run|
    ensures ValidChain(hash, difficulty, run[i].chain)
    ensures forall k :: 0 <= k < |run[i].chain| ==> run[i].chain[k].content.index == k
  {
    RunKeepsInv(hash, difficulty, run, i);
  }

  /** At most one caller is between raising and lowering the flag. */
  lemma OneMinerAtATime<T(!new)>(hash: HashFn<T>, difficulty: nat, run: seq<State<T>>, i: nat, p: Thread, q: Thread)
    requires IsRun(hash, difficulty, run) && i < |run|
    requires p in run[i].pc && q in run[i].pc && run[i].pc[p] != Idle && run[i].pc[q] != Idle
    ensures p == q && run[i].mining
  {
    RunKeepsInv(hash, difficulty, run, i);
  }

  /**
   With no caller in the middle of mining, every submitted transaction is, as often as it was
   submitted, in the mempool, in the chain, or among those dropped by a cancelled call.
   */
  lemma TransactionsAreConserved<T(!new)>(hash: HashFn<T>, difficulty: nat, run: seq<State<T>>, i: nat)
    requires IsRun(hash, difficulty, run) && i < |run| && !run[i].mining
    ensures run[i].added == multiset(run[i].mempool) + InChain(run[i].chain) + run[i].lost
  {
    RunKeepsInv(hash, difficulty, run, i);
  }

  /** A call is cancelled in this step. */
  ghost predicate Cancels<T(!new)>(hash: HashFn<T>, difficulty: nat, s: State<T>, s': State<T>) {
    exists p :: Enabled(s, p, Cancel) && s' == Apply(hash, difficulty, s, p, Cancel)
  }

  lemma CancelLoses<T>(hash: HashFn<T>, difficulty: nat, s: State<T>, p: Thread)
    requires Inv(hash, difficulty, s) && Enabled(s, p, Cancel)
    ensures |Apply(hash, difficulty, s, p, Cancel).lost| > |s.lost|
  {
    Inside(hash, difficulty, s, p);
    assert |multiset(s.pc[p].txs)| == |s.pc[p].txs| > 0;
  }

  lemma OthersLoseNothing<T>(hash: HashFn<T>, difficulty: nat, s: State<T>, p: Thread, e: Event<T>)
    requires Enabled(s, p, e) && !e.Cancel?
    ensures Apply(hash, difficulty, s, p, e).lost == s.lost
  {
  }

  lemma StepLosesIffCancel<T(!new)>(hash: HashFn<T>, difficulty: nat, s: State<T>, s': State<T>)
    requires Inv(hash, difficulty, s) && Next(hash, difficulty, s, s')
    ensures if Cancels(hash, difficulty, s, s') then |s'.lost| > |s.lost| else s'.lost == s.lost
  {
    if Cancels(hash, difficulty, s, s') {
      var q :| Enabled(s, q, Cancel) && s' == Apply(hash, difficulty, s, q, Cancel);
      CancelLoses(hash, difficulty, s, q);
    } else {
      var p, e :| Enabled(s, p, e) && s' == Apply(hash, difficulty, s, p, e);
      OthersLoseNothing(hash, difficulty, s, p, e);
    }
  }

  /** Some call was cancelled in the first `i` steps. */
  ghost predicate EverCancels<T(!new)>(hash: HashFn<T>, difficulty: nat, run: seq<State<T>>, i: nat)
    requires i < |run|
  {
    i > 0 && (EverCancels(hash, difficulty, run, i - 1) || Cancels(hash, difficulty, run[i - 1], run[i]))
  }

  /**
   With no caller in the middle of mining, every submitted transaction is waiting or confirmed, as
   often as it was submitted, exactly when no call so far was cancelled.
   */
  lemma NothingMissingIffNeverCancelled<T(!new)>(hash: HashFn<T>, difficulty: nat, run: seq<State<T>>, i: nat)
    requires IsRun(hash, difficulty, run) && i < |run| && !run[i].mining
    ensures run[i].added == multiset(run[i].mempool) + InChain(run[i].chain) <==> !EverCancels(hash, difficulty, run, i)
  {
    TransactionsAreConserved(hash, difficulty, run, i);
    LostIffCancelled(hash, difficulty, run, i);
    var kept := multiset(run[i].mempool) + InChain(run[i].chain);
    assert |kept + run[i].lost| == |kept| + |run[i].lost|;
  }

  lemma {:induction false} LostIffCancelled<T(!new)>(hash: HashFn<T>, difficulty: nat, run: seq<State<T>>, i: nat)
    requires IsRun(hash, difficulty, run) && i < |run|
    ensures run[i].lost != multiset{} <==> EverCancels(hash, difficulty, run, i)
  {
    if i > 0 {
      LostIffCancelled(hash, difficulty, run, i - 1);
      RunKeepsInv(hash, difficulty, run, i - 1);
      StepLosesIffCancel(hash, difficulty, run[i - 1], run[i]);
    }
  }

  lemma RunExtends<T(!new)>(hash: HashFn<T>, difficulty: nat, run: seq<State<T>>, p: Thread, e: Event<T>, s': State<T>)
    requires IsRun(hash, difficulty, run)
    requires var s := run[|run| - 1]; Enabled(s, p, e) && s' == Apply(hash, difficulty, s, p, e)
    ensures IsRun(hash, difficulty, run + [s'])
  {
    var longer := run + [s'];
    assert Next(hash, difficulty, run[|run| - 1], s');
    forall i | 0 < i < |longer|
      ensures Next(hash, difficulty, longer[i - 1], longer[i])
    {
      assert i < |run| ==> Next(hash, difficulty, run[i - 1], run[i]);
    }
  }

  /** One block, one thread at `c`, one transaction added. */
  function Small(first: Block<int>, mempool: seq<int>, mining: bool, c: Pc<int>, lost: multiset<int>): State<int> {
    State([first], mempool, mining, map[0 := c], multiset{7}, lost)
  }

  lemma TakenRun(hash: HashFn<int>, difficulty: nat, first: Block<int>) returns (run: seq<State<int>>)
    requires first.content.txs == [] && first.content.index == 0
    ensures IsRun(hash, difficulty, run)
    ensures run[|run| - 1] == Small(first, [], true, Searching("m", [7], first, 0, 0), multiset{})
  {
    var s1 := Small(first, [7], false, Idle, multiset{});
    run := [State([first], [], false, map[0 := Idle], multiset{}, multiset{})];
    RunExtends(hash, difficulty, run, 0, Add(7), s1);
    run := run + [s1];
    var s2 := Small(first, [7], true, Claimed, multiset{});
    RunExtends(hash, difficulty, run, 0, Claim, s2);
    run := run + [s2];
    var s3 := Small(first, [], true, Searching("m", [7], first, 0, 0), multiset{});
    RunExtends(hash, difficulty, run, 0, Take("m", 0), s3);
    run := run + [s3];
  }

  /** One transaction is added and taken, and the call is cancelled: it is neither waiting nor confirmed. */
  lemma CancelLosesTransaction(hash: HashFn<int>, difficulty: nat, first: Block<int>) returns (run: seq<State<int>>)
    requires first.content.txs == [] && first.content.index == 0
    ensures IsRun(hash, difficulty, run)
    ensures var s := run[|run| - 1];
            !s.mining && s.added == multiset{7} && s.mempool == [] && InChain(s.chain) == multiset{}
  {
    run := TakenRun(hash, difficulty, first);
    var s4 := Small(first, [], true, Leaving, multiset{7});
    RunExtends(hash, difficulty, run, 0, Cancel, s4);
    run := run + [s4];
    var s5 := Small(first, [], false, Idle, multiset{7});
    RunExtends(hash, difficulty, run, 0, Leave, s5);
    run := run + [s5];
    assert s5.chain[..0] == [];
  }

  /** A transaction submitted once is confirmed at most once, and never while it also waits or is being mined. */
  lemma ConfirmedAtMostOnce<T(!new)>(hash: HashFn<T>, difficulty: nat, run: seq<State<T>>, i: nat, tx: T)
    requires IsRun(hash, difficulty, run) && i < |run| && run[i].added[tx] <= 1
    ensures InChain(run[i].chain)[tx] + multiset(run[i].mempool)[tx] + run[i].lost[tx] <= 1
    ensures forall p :: p in run[i].pc ==>
              InChain(run[i].chain)[tx] + multiset(run[i].mempool)[tx] + run[i].lost[tx]
              + Carried(run[i].pc[p])[tx] <= 1
  {
    RunKeepsInv(hash, difficulty, run, i);
  }
}
