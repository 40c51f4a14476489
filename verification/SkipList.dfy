/**
 The lock-free skip list of the memtable: concurrent inserters link their nodes level by level with
 compare-and-swap while readers search.

 A step is one atomic load or compare-and-swap of a pointer.  Node 0 is the head.  The nodes are those
 of all insertions of a run, each with its own inserter; `chain` names the nodes linked at each level,
 in order.
 */
module SkipList {
  import opened Keys

  const MAX_HEIGHT: nat := 12

  datatype Node = Node(key: UserKey, height: nat)

  /** The neighbours found for a key at some levels. */
  datatype Splice = Splice(prev: map<nat, nat>, next: map<nat, Option<nat>>)

  /** An inserter: raising max_height, filling its splice from level `top` - 1 down, and linking from
      level 0 up.  In Ready the node's own pointer is set and the compare-and-swap comes next. */
  datatype Inserter =
    | Fresh
    | Raising(seen: nat)
    | Seeking(level: nat, before: nat, after: Option<nat>, top: nat, splice: Splice)
    | Linking(level: nat, splice: Splice)
    | Ready(level: nat, splice: Splice)
    | Refinding(level: nat, before: nat, splice: Splice)
    | Linked
    | Duplicate

  /** A reader: FindGreaterOrEqual and its result, FindLessThan and its result, FindLast and its result. */
  datatype Reader =
    | Off
    | Searching(target: UserKey, at: nat, level: nat, bigger: Option<nat>)
    | Found(target: UserKey, node: Option<nat>)
    | Approaching(target: UserKey, at: nat, level: nat, notAfter: Option<nat>)
    | Reached(target: UserKey, last: nat)
    | Racing(at: nat, level: nat)
    | Ended(last: nat)

  datatype State = State(
    nodes: seq<Node>,
    next: seq<seq<Option<nat>>>,
    maxHeight: nat,
    inserters: seq<Inserter>,
    readers: map<nat, Reader>,
    chain: seq<seq<nat>>)

  ghost predicate Shaped(s: State) {
    && s.nodes != [] && |s.next| == MAX_HEIGHT && |s.chain| == MAX_HEIGHT && |s.inserters| == |s.nodes|
    && (forall l :: 0 <= l < MAX_HEIGHT ==> |s.next[l]| == |s.nodes|)
    && forall n :: 0 < n < |s.nodes| ==> 1 <= s.nodes[n].height <= MAX_HEIGHT
  }

  ghost predicate Init(s: State) {
    && Shaped(s) && s.maxHeight == 1
    && (forall l :: 0 <= l < MAX_HEIGHT ==> s.chain[l] == [0] && s.next[l][0] == None)
    && (forall n :: 0 <= n < |s.nodes| ==> s.inserters[n] == Fresh)
    && forall r :: r in s.readers ==> s.readers[r] == Off
  }

  /** KeyIsAfterNode: null counts as infinite. */
  predicate KeyIsAfter(s: State, key: UserKey, n: Option<nat>) {
    n.Some? && n.value < |s.nodes| && s.nodes[n.value].key < key
  }

  function SetInserter(s: State, x: nat, p: Inserter): State
    requires x < |s.inserters|
  {
    s.(inserters := s.inserters[x := p])
  }

  function SetNext(s: State, l: nat, n: nat, to: Option<nat>): State
    requires l < |s.next| && n < |s.next[l]|
  {
    s.(next := s.next[l := s.next[l][n := to]])
  }

  // ----- An inserter -----

  ghost predicate ReadHeight(s: State, s': State, x: nat)
    requires Shaped(s)
  {
    && 0 < x < |s.nodes| && s.inserters[x].Fresh?
    && s' == SetInserter(s, x, Raising(s.maxHeight))
  }

  /** One round of the loop that raises max_height; a failed exchange reloads it. */
  ghost predicate RaiseHeight(s: State, s': State, x: nat)
    requires Shaped(s)
  {
    && 0 < x < |s.nodes| && s.inserters[x].Raising?
    && var seen, h := s.inserters[x].seen, s.nodes[x].height;
    && if h <= seen then s' == SetInserter(s, x, Start(seen))
       else if s.maxHeight == seen then s' == SetInserter(s, x, Start(h)).(maxHeight := h)
       else s' == SetInserter(s, x, Raising(s.maxHeight))
  }

  /** The splice knows the head and null above the top level, and nothing below. */
  function Start(top: nat): Inserter {
    Seeking(if top > 0 then top - 1 else 0, 0, None, top, Splice(map[], map[]))
  }

  /** One round of FindSpliceForLevel, filling the splice. */
  ghost predicate Seek(s: State, s': State, x: nat)
    requires Shaped(s)
  {
    && 0 < x < |s.nodes| && s.inserters[x].Seeking?
    && var p := s.inserters[x];
    && p.level < MAX_HEIGHT && p.before < |s.nodes|
    && var n := s.next[p.level][p.before];
    && if n == p.after || !KeyIsAfter(s, s.nodes[x].key, n) then
         var filled := Splice(p.splice.prev[p.level := p.before], p.splice.next[p.level := n]);
         s' == SetInserter(s, x, if p.level == 0 then Linking(0, filled)
                                 else Seeking(p.level - 1, p.before, n, p.top, filled))
       else
         s' == SetInserter(s, x, Seeking(p.level, n.value, p.after, p.top, p.splice))
  }

  /** The duplicate check at level 0, then the node's own pointer. */
  ghost predicate Prepare(s: State, s': State, x: nat)
    requires Shaped(s)
  {
    && 0 < x < |s.nodes| && s.inserters[x].Linking?
    && var p := s.inserters[x];
    && p.level < MAX_HEIGHT && p.level in p.splice.next && p.level in p.splice.prev
    && var n, b := p.splice.next[p.level], p.splice.prev[p.level];
    && if p.level == 0 && ((n.Some? && n.value < |s.nodes| && s.nodes[x].key >= s.nodes[n.value].key)
                           || (0 < b < |s.nodes| && s.nodes[b].key >= s.nodes[x].key))
       then s' == SetInserter(s, x, Duplicate)
       else s' == SetNext(SetInserter(s, x, Ready(p.level, p.splice)), p.level, x, n)
  }

  /** The chain with `x` behind the node at position `i`. */
  function InsertAfter(c: seq<nat>, i: nat, x: nat): seq<nat>
    requires i < |c|
  {
    c[..i + 1] + [x] + c[i + 1..]
  }

  /** The compare-and-swap of the predecessor's pointer. */
  ghost predicate Swap(s: State, s': State, x: nat, i: nat)
    requires Shaped(s)
  {
    && 0 < x < |s.nodes| && s.inserters[x].Ready?
    && var p := s.inserters[x];
    && p.level < MAX_HEIGHT && p.level in p.splice.next && p.level in p.splice.prev
    && p.splice.prev[p.level] < |s.nodes|
    && var b := p.splice.prev[p.level];
    && if s.next[p.level][b] == p.splice.next[p.level] then
         && i < |s.chain[p.level]| && s.chain[p.level][i] == b
         && var next := if p.level + 1 < s.nodes[x].height then Linking(p.level + 1, p.splice) else Linked;
         && s' == SetNext(SetInserter(s, x, next), p.level, b, Some(x)).(
                    chain := s.chain[p.level := InsertAfter(s.chain[p.level], i, x)])
       else
         s' == SetInserter(s, x, Refinding(p.level, b, p.splice))
  }

  /** One round of FindSpliceForLevel after a failed exchange, without a bound. */
  ghost predicate Refind(s: State, s': State, x: nat)
    requires Shaped(s)
  {
    && 0 < x < |s.nodes| && s.inserters[x].Refinding?
    && var p := s.inserters[x];
    && p.level < MAX_HEIGHT && p.before < |s.nodes|
    && var n := s.next[p.level][p.before];
    && if n == None || !KeyIsAfter(s, s.nodes[x].key, n) then
         s' == SetInserter(s, x, Linking(p.level,
                             Splice(p.splice.prev[p.level := p.before], p.splice.next[p.level := n])))
       else
         s' == SetInserter(s, x, Refinding(p.level, n.value, p.splice))
  }

  // ----- A reader -----

  predicate Busy(q: Reader) {
    q.Searching? || q.Approaching? || q.Racing?
  }

  /** Any of the three, from the head and the top level. */
  predicate Starts(q: Reader, maxHeight: nat) {
    && maxHeight > 0
    && match q
       case Searching(_, at, level, bigger) => at == 0 && level == maxHeight - 1 && bigger == None
       case Approaching(_, at, level, notAfter) => at == 0 && level == maxHeight - 1 && notAfter == None
       case Racing(at, level) => at == 0 && level == maxHeight - 1
       case _ => false
  }

  ghost predicate Begin(s: State, s': State, r: nat, q: Reader)
    requires Shaped(s)
  {
    r in s.readers && !Busy(s.readers[r]) && Starts(q, s.maxHeight) && s' == s.(readers := s.readers[r := q])
  }

  /** One round of FindGreaterOrEqual. */
  ghost predicate Find(s: State, s': State, r: nat)
    requires Shaped(s)
  {
    && r in s.readers && s.readers[r].Searching?
    && var q := s.readers[r];
    && q.level < MAX_HEIGHT && q.at < |s.nodes|
    && var n := s.next[q.level][q.at];
    && var less := n != q.bigger && KeyIsAfter(s, q.target, n);
    && var same := n != q.bigger && n.Some? && n.value < |s.nodes| && s.nodes[n.value].key == q.target;
    && s' == s.(readers := s.readers[r :=
              if same || (!less && q.level == 0) then Found(q.target, n)
              else if less then Searching(q.target, n.value, q.level, q.bigger)
              else Searching(q.target, q.at, q.level - 1, n)])
  }

  /** One round of FindLessThan. */
  ghost predicate Approach(s: State, s': State, r: nat)
    requires Shaped(s)
  {
    && r in s.readers && s.readers[r].Approaching?
    && var q := s.readers[r];
    && q.level < MAX_HEIGHT && q.at < |s.nodes|
    && var n := s.next[q.level][q.at];
    && s' == s.(readers := s.readers[r :=
              if n != q.notAfter && KeyIsAfter(s, q.target, n) then Approaching(q.target, n.value, q.level, q.notAfter)
              else if q.level == 0 then Reached(q.target, q.at)
              else Approaching(q.target, q.at, q.level - 1, n)])
  }

  /** One round of FindLast. */
  ghost predicate Race(s: State, s': State, r: nat)
    requires Shaped(s)
  {
    && r in s.readers && s.readers[r].Racing?
    && var q := s.readers[r];
    && q.level < MAX_HEIGHT && q.at < |s.nodes|
    && var n := s.next[q.level][q.at];
    && s' == s.(readers := s.readers[r :=
              if n.Some? then Racing(n.value, q.level)
              else if q.level == 0 then Ended(q.at)
              else Racing(q.at, q.level - 1)])
  }

  ghost predicate Step(s: State, s': State) {
    && Shaped(s)
    && (|| (exists x :: InserterStep(s, s', x))
        || (exists r, q :: Begin(s, s', r, q))
        || (exists r :: ReaderStep(s, s', r)))
  }

  ghost predicate ReaderStep(s: State, s': State, r: nat)
    requires Shaped(s)
  {
    Find(s, s', r) || Approach(s, s', r) || Race(s, s', r)
  }

  ghost predicate InserterStep(s: State, s': State, x: nat)
    requires Shaped(s)
  {
    || ReadHeight(s, s', x) || RaiseHeight(s, s', x) || Seek(s, s', x) || Prepare(s, s', x)
    || (exists i :: Swap(s, s', x, i)) || Refind(s, s', x)
  }

  function Last(tr: seq<State>): State
    requires tr != []
  {
    tr[|tr| - 1]
  }

  /** A run; every prefix of one is one. */
  ghost predicate Run(tr: seq<State>) {
    && tr != []
    && if |tr| == 1 then Init(Last(tr)) else Run(tr[..|tr| - 1]) && Step(Last(tr[..|tr| - 1]), Last(tr))
  }

  // ----- The invariants -----

  /** Ascending keys behind the head. */
  ghost predicate Ascends(nodes: seq<Node>, c: seq<nat>) {
    && c != [] && c[0] == 0
    && (forall i :: 0 < i < |c| ==> 0 < c[i] < |nodes|)
    && forall i, j :: 0 < i < j < |c| ==> nodes[c[i]].key < nodes[c[j]].key
  }

  /** The pointer from position `i`. */
  function Successor(c: seq<nat>, i: nat): Option<nat>
    requires i < |c|
  {
    if i + 1 < |c| then Some(c[i + 1]) else None
  }

  /** The pointers of a level spell out its chain. */
  ghost predicate Spells(next: seq<Option<nat>>, c: seq<nat>) {
    forall i :: 0 <= i < |c| ==> c[i] < |next| && next[c[i]] == Successor(c, i)
  }

  ghost predicate LevelOk(s: State, l: nat)
    requires Shaped(s) && l < MAX_HEIGHT
  {
    Ascends(s.nodes, s.chain[l]) && Spells(s.next[l], s.chain[l])
  }

  /** Every node of a level is also on the level below. */
  ghost predicate Nested(s: State)
    requires Shaped(s)
  {
    forall l, m, n :: 0 <= l < m < MAX_HEIGHT && n in s.chain[m] ==> n in s.chain[l]
  }

  /** On level `l`, and before `key`. */
  ghost predicate Below(s: State, l: nat, n: nat, key: UserKey)
    requires Shaped(s) && l < MAX_HEIGHT
  {
    n in s.chain[l] && n < |s.nodes| && (n == 0 || s.nodes[n].key < key)
  }

  /** Null, or on level `l` and not before `key`. */
  ghost predicate NotBelow(s: State, l: nat, n: Option<nat>, key: UserKey)
    requires Shaped(s) && l < MAX_HEIGHT
  {
    n == None || (n.value in s.chain[l] && 0 < n.value < |s.nodes| && s.nodes[n.value].key >= key)
  }

  /** The splice brackets `key` at level `l`. */
  ghost predicate Brackets(s: State, sp: Splice, l: nat, key: UserKey)
    requires Shaped(s) && l < MAX_HEIGHT
  {
    l in sp.prev && l in sp.next && Below(s, l, sp.prev[l], key) && NotBelow(s, l, sp.next[l], key)
  }

  /** How many levels the inserter has linked. */
  function Done(s: State, x: nat): nat
    requires x < |s.inserters| && x < |s.nodes|
  {
    match s.inserters[x]
    case Linking(l, _) => l
    case Ready(l, _) => l
    case Refinding(l, _, _) => l
    case Linked => s.nodes[x].height
    case _ => 0
  }

  ghost predicate SpliceOk(s: State, x: nat, sp: Splice, from: nat)
    requires Shaped(s) && x < |s.nodes|
  {
    forall l :: from <= l < s.nodes[x].height && l < MAX_HEIGHT ==> Brackets(s, sp, l, s.nodes[x].key)
  }

  ghost predicate InserterOk(s: State, x: nat)
    requires Shaped(s) && 0 < x < |s.nodes|
  {
    var key, h := s.nodes[x].key, s.nodes[x].height;
    && (forall l :: 0 <= l < MAX_HEIGHT ==> (x in s.chain[l] <==> l < Done(s, x)))
    && match s.inserters[x]
       case Fresh => true
       case Raising(seen) => seen <= MAX_HEIGHT
       case Seeking(l, b, a, top, sp) =>
         l < top <= MAX_HEIGHT && h <= top && Below(s, l, b, key) && NotBelow(s, l, a, key) && SpliceOk(s, x, sp, l + 1)
       case Linking(l, sp) => l < h && SpliceOk(s, x, sp, l)
       case Ready(l, sp) =>
         l < h && SpliceOk(s, x, sp, l) && l in sp.next && s.next[l][x] == sp.next[l] && Apart(s, x, sp.next[l])
       case Refinding(l, b, sp) => l < h && SpliceOk(s, x, sp, l) && Below(s, l, b, key)
       case Linked => true
       case Duplicate => exists n :: n in s.chain[0] && 0 < n < |s.nodes| && s.nodes[n].key == key
  }

  /** Strictly after node `x`. */
  ghost predicate Apart(s: State, x: nat, n: Option<nat>)
    requires Shaped(s) && x < |s.nodes|
  {
    n.Some? ==> n.value < |s.nodes| && s.nodes[x].key < s.nodes[n.value].key
  }

  ghost predicate ReaderOk(s: State, r: nat)
    requires Shaped(s) && r in s.readers
  {
    match s.readers[r]
    case Searching(target, at, l, bigger) => l < MAX_HEIGHT && Below(s, l, at, target) && NotBelow(s, l, bigger, target)
    case Approaching(target, at, l, after) => l < MAX_HEIGHT && Below(s, l, at, target) && NotBelow(s, l, after, target)
    case Racing(at, l) => l < MAX_HEIGHT && at in s.chain[l] && at < |s.nodes|
    case _ => true
  }

  ghost predicate Inv(s: State) {
    && Shaped(s) && 1 <= s.maxHeight <= MAX_HEIGHT && Nested(s)
    && (forall l :: 0 <= l < MAX_HEIGHT ==> LevelOk(s, l))
    && (forall x :: 0 < x < |s.nodes| ==> InserterOk(s, x))
    && forall r :: r in s.readers ==> ReaderOk(s, r)
  }

  // ----- Chains -----

  /** A pointer read from a node of a level leads to the next node of its chain. */
  lemma {:induction false} ReadNext(s: State, l: nat, n: nat) returns (i: nat)
    requires Shaped(s) && l < MAX_HEIGHT && LevelOk(s, l) && n in s.chain[l]
    ensures i < |s.chain[l]| && s.chain[l][i] == n && n < |s.nodes| && s.next[l][n] == Successor(s.chain[l], i)
  {
    i :| 0 <= i < |s.chain[l]| && s.chain[l][i] == n;
  }

  /** Between a node below `key` and its successor, which is not, lies nothing. */
  lemma {:induction false} Split(nodes: seq<Node>, c: seq<nat>, i: nat, key: UserKey, m: nat)
    requires Ascends(nodes, c) && i < |c| && (i > 0 ==> nodes[c[i]].key < key) && m in c && 0 < m < |nodes|
    requires i + 1 < |c| ==> nodes[c[i + 1]].key >= key
    ensures nodes[m].key >= key <==> i + 1 < |c| && nodes[m].key >= nodes[c[i + 1]].key
  {
    var j :| 0 <= j < |c| && c[j] == m;
    assert 0 < j < i ==> nodes[c[j]].key < nodes[c[i]].key;
    assert i + 1 < j ==> nodes[c[i + 1]].key < nodes[c[j]].key;
  }

  lemma {:induction false} InsertAscends(nodes: seq<Node>, c: seq<nat>, i: nat, x: nat)
    requires Ascends(nodes, c) && i < |c| && 0 < x < |nodes|
    requires i > 0 ==> nodes[c[i]].key < nodes[x].key
    requires i + 1 < |c| ==> nodes[x].key < nodes[c[i + 1]].key
    ensures Ascends(nodes, InsertAfter(c, i, x))
  {
    var d := InsertAfter(c, i, x);
    forall a, b | 0 < a < b < |d|
      ensures nodes[d[a]].key < nodes[d[b]].key
    {
      InsertOrder(nodes, c, i, x, a, b);
    }
  }

  lemma {:induction false} InsertOrder(nodes: seq<Node>, c: seq<nat>, i: nat, x: nat, a: nat, b: nat)
    requires Ascends(nodes, c) && i < |c| && 0 < x < |nodes|
    requires i > 0 ==> nodes[c[i]].key < nodes[x].key
    requires i + 1 < |c| ==> nodes[x].key < nodes[c[i + 1]].key
    requires 0 < a < b < |InsertAfter(c, i, x)|
    ensures var d := InsertAfter(c, i, x); nodes[d[a]].key < nodes[d[b]].key
  {
    var d := InsertAfter(c, i, x);
    assert d[a] == if a <= i then c[a] else if a == i + 1 then x else c[a - 1];
    assert d[b] == if b <= i then c[b] else if b == i + 1 then x else c[b - 1];
    assert 0 < a < i ==> nodes[c[a]].key < nodes[c[i]].key;
    assert b - 1 > i + 1 ==> nodes[c[i + 1]].key < nodes[c[b - 1]].key;
  }

  lemma {:induction false} InsertElements(c: seq<nat>, i: nat, x: nat, n: nat)
    requires i < |c|
    ensures n in InsertAfter(c, i, x) <==> n in c || n == x
  {
    assert c == c[..i + 1] + c[i + 1..];
  }

  lemma {:induction false} NoRepeats(nodes: seq<Node>, c: seq<nat>, i: nat, j: nat)
    requires Ascends(nodes, c) && i < |c| && j < |c|
    ensures c[i] == c[j] <==> i == j
  {
  }

  lemma {:induction false} InsertSpells(next: seq<Option<nat>>, nodes: seq<Node>, c: seq<nat>, i: nat, x: nat)
    requires Ascends(nodes, c) && Spells(next, c) && i < |c| && x < |next| && x !in c && next[x] == Successor(c, i)
    ensures Spells(next[c[i] := Some(x)], InsertAfter(c, i, x))
  {
    var d, next' := InsertAfter(c, i, x), next[c[i] := Some(x)];
    forall j | 0 <= j < |d|
      ensures d[j] < |next'| && next'[d[j]] == Successor(d, j)
    {
      if j == i + 1 {
        assert d[j] == x && next'[x] == next[x];
      } else {
        var k := if j <= i then j else j - 1;
        assert d[j] == c[k];
        NoRepeats(nodes, c, i, k);
        assert next[c[k]] == Successor(c, k);
      }
    }
  }

  // ----- Steps that link nothing -----

  /** Only inserter `x` moved; it may have set a pointer of its own node at a level where the node is
      not linked. */
  ghost predicate OnlyInserter(s: State, s': State, x: nat)
    requires Shaped(s)
  {
    && 0 < x < |s.nodes| && Shaped(s')
    && s'.nodes == s.nodes && s'.readers == s.readers && s'.chain == s.chain && 1 <= s'.maxHeight <= MAX_HEIGHT
    && s'.inserters == s.inserters[x := s'.inserters[x]]
    && forall l, n :: 0 <= l < MAX_HEIGHT && 0 <= n < |s.nodes| && (n != x || x in s.chain[l]) ==>
         s'.next[l][n] == s.next[l][n]
  }

  lemma {:induction false} OthersKept(s: State, s': State, x: nat, y: nat)
    requires Shaped(s) && OnlyInserter(s, s', x) && 0 < y < |s.nodes| && y != x && InserterOk(s, y)
    ensures InserterOk(s', y)
  {
    var p := s.inserters[y];
    assert Done(s', y) == Done(s, y);
    if p.Seeking? {
      SpliceKept(s, s', y, p.splice, p.level + 1);
    } else if p.Linking? || p.Ready? || p.Refinding? {
      SpliceKept(s, s', y, p.splice, p.level);
    }
  }

  lemma {:induction false} SpliceKept(s: State, s': State, y: nat, sp: Splice, from: nat)
    requires Shaped(s) && Shaped(s') && s'.nodes == s.nodes && y < |s.nodes| && SpliceOk(s, y, sp, from)
    requires forall l, n :: 0 <= l < MAX_HEIGHT && n in s.chain[l] ==> n in s'.chain[l]
    ensures SpliceOk(s', y, sp, from)
  {
    forall l | from <= l < s.nodes[y].height && l < MAX_HEIGHT
      ensures Brackets(s', sp, l, s.nodes[y].key)
    {
      assert Brackets(s, sp, l, s.nodes[y].key);
    }
  }

  lemma {:induction false} OnlyInserterKeeps(s: State, s': State, x: nat)
    requires Inv(s) && OnlyInserter(s, s', x) && InserterOk(s', x)
    ensures Inv(s')
  {
    forall l | 0 <= l < MAX_HEIGHT
      ensures LevelOk(s', l)
    {
      assert LevelOk(s, l);
    }
    forall y | 0 < y < |s'.nodes|
      ensures InserterOk(s', y)
    {
      if y != x {
        assert InserterOk(s, y);
        OthersKept(s, s', x, y);
      }
    }
    forall r | r in s'.readers
      ensures ReaderOk(s', r)
    {
      assert ReaderOk(s, r);
    }
  }

  lemma {:induction false} HeightKeeps(s: State, s': State, x: nat)
    requires Inv(s) && (ReadHeight(s, s', x) || RaiseHeight(s, s', x))
    ensures Inv(s')
  {
    assert InserterOk(s, x);
    forall l | 0 <= l < MAX_HEIGHT
      ensures 0 in s.chain[l]
    {
      assert LevelOk(s, l) && s.chain[l][0] == 0;
    }
    OnlyInserterKeeps(s, s', x);
  }

  /** The round that finds the neighbours of level `p.level`. */
  lemma {:induction false} SeekFound(s: State, s': State, x: nat, p: Inserter, n: Option<nat>)
    requires Shaped(s) && Nested(s) && Seek(s, s', x) && p == s.inserters[x] && InserterOk(s, x)
    requires n == s.next[p.level][p.before] && NotBelow(s, p.level, n, s.nodes[x].key)
    ensures n == p.after || !KeyIsAfter(s, s.nodes[x].key, n) ==> InserterOk(s', x)
  {
    if n == p.after || !KeyIsAfter(s, s.nodes[x].key, n) {
      var filled := Splice(p.splice.prev[p.level := p.before], p.splice.next[p.level := n]);
      Fill(s, x, p.splice, p.level, p.before, n);
      SpliceKept(s, s', x, filled, p.level);
    }
  }

  lemma {:induction false} SeekOn(s: State, s': State, x: nat, p: Inserter, n: Option<nat>)
    requires Shaped(s) && Seek(s, s', x) && p == s.inserters[x] && InserterOk(s, x) && n == s.next[p.level][p.before]
    requires n != p.after && KeyIsAfter(s, s.nodes[x].key, n) && n.value in s.chain[p.level]
    ensures InserterOk(s', x)
  {
    SpliceKept(s, s', x, p.splice, p.level + 1);
  }

  lemma {:induction false} SeekKeeps(s: State, s': State, x: nat)
    requires Inv(s) && Seek(s, s', x)
    ensures Inv(s')
  {
    assert InserterOk(s, x) && LevelOk(s, s.inserters[x].level);
    SeekKeepsSelf(s, s', x);
    OnlyInserterKeeps(s, s', x);
  }

  lemma {:induction false} SeekKeepsSelf(s: State, s': State, x: nat)
    requires Shaped(s) && Nested(s) && Seek(s, s', x) && InserterOk(s, x) && LevelOk(s, s.inserters[x].level)
    ensures InserterOk(s', x)
  {
    var p := s.inserters[x];
    var key, n := s.nodes[x].key, s.next[p.level][p.before];
    var i := ReadNext(s, p.level, p.before);
    if n == p.after || !KeyIsAfter(s, key, n) {
      SeekFound(s, s', x, p, n);
    } else {
      SeekOn(s, s', x, p, n);
    }
  }

  /** Filling one level of a splice that is right above it. */
  lemma {:induction false} Fill(s: State, x: nat, sp: Splice, l: nat, b: nat, n: Option<nat>)
    requires Shaped(s) && x < |s.nodes| && l < MAX_HEIGHT && SpliceOk(s, x, sp, l + 1)
    requires Below(s, l, b, s.nodes[x].key) && NotBelow(s, l, n, s.nodes[x].key)
    ensures SpliceOk(s, x, Splice(sp.prev[l := b], sp.next[l := n]), l)
  {
    var filled := Splice(sp.prev[l := b], sp.next[l := n]);
    forall k | l <= k < s.nodes[x].height && k < MAX_HEIGHT
      ensures Brackets(s, filled, k, s.nodes[x].key)
    {
      assert k > l ==> Brackets(s, sp, k, s.nodes[x].key);
    }
  }

  /** Equal keys do not meet: a node not before `x` on a level where `x` will be linked is after it. */
  lemma {:induction false} NoTwins(s: State, x: nat, l: nat, n: nat)
    requires Inv(s) && 0 < x < |s.nodes| && 0 < l < MAX_HEIGHT && x in s.chain[0] && x !in s.chain[l]
    requires NotBelow(s, l, Some(n), s.nodes[x].key)
    ensures s.nodes[x].key < s.nodes[n].key
  {
    assert n in s.chain[0] && n != x && LevelOk(s, 0);
    var c := s.chain[0];
    var i :| 0 <= i < |c| && c[i] == x;
    var j :| 0 <= j < |c| && c[j] == n;
    assert i != j;
  }

  lemma {:induction false} PrepareKeeps(s: State, s': State, x: nat)
    requires Inv(s) && Prepare(s, s', x)
    ensures Inv(s')
    ensures s'.inserters[x].Duplicate? <==>
              s.inserters[x].level == 0 && exists n :: n in s.chain[0] && Some(n) == s.inserters[x].splice.next[0]
                                                    && 0 < n < |s.nodes| && s.nodes[n].key == s.nodes[x].key
  {
    var p := s.inserters[x];
    var key := s.nodes[x].key;
    assert InserterOk(s, x);
    assert Brackets(s, p.splice, p.level, key);
    var n := p.splice.next[p.level];
    if p.level > 0 && n.Some? {
      NoTwins(s, x, p.level, n.value);
    }
    if !s'.inserters[x].Duplicate? {
      SpliceKept(s, s', x, p.splice, p.level);
    }
    OnlyInserterKeeps(s, s', x);
  }

  lemma {:induction false} RefindFound(s: State, s': State, x: nat, p: Inserter, n: Option<nat>)
    requires Shaped(s) && Refind(s, s', x) && p == s.inserters[x] && InserterOk(s, x) && n == s.next[p.level][p.before]
    requires || NotBelow(s, p.level, n, s.nodes[x].key)
             || (n.Some? && n.value in s.chain[p.level] && 0 < n.value < |s.nodes|)
    ensures InserterOk(s', x)
  {
    if n == None || !KeyIsAfter(s, s.nodes[x].key, n) {
      var filled := Splice(p.splice.prev[p.level := p.before], p.splice.next[p.level := n]);
      assert SpliceOk(s, x, p.splice, p.level + 1);
      Fill(s, x, p.splice, p.level, p.before, n);
      SpliceKept(s, s', x, filled, p.level);
    } else {
      SpliceKept(s, s', x, p.splice, p.level);
    }
  }

  lemma {:induction false} RefindKeeps(s: State, s': State, x: nat)
    requires Inv(s) && Refind(s, s', x)
    ensures Inv(s')
  {
    var p := s.inserters[x];
    assert InserterOk(s, x) && LevelOk(s, p.level);
    var i := ReadNext(s, p.level, p.before);
    RefindFound(s, s', x, p, s.next[p.level][p.before]);
    OnlyInserterKeeps(s, s', x);
  }

  // ----- Linking -----

  /** Levels only grow. */
  ghost predicate Grows(s: State, s': State)
    requires Shaped(s)
  {
    && Shaped(s') && s'.nodes == s.nodes
    && forall l, n :: 0 <= l < MAX_HEIGHT && n in s.chain[l] ==> n in s'.chain[l]
  }

  ghost predicate Succeeds(s: State, x: nat)
    requires Shaped(s) && 0 < x < |s.nodes| && s.inserters[x].Ready?
  {
    var p := s.inserters[x];
    && p.level < MAX_HEIGHT && p.level in p.splice.next && p.level in p.splice.prev
    && p.splice.prev[p.level] < |s.nodes|
    && s.next[p.level][p.splice.prev[p.level]] == p.splice.next[p.level]
  }

  /** The exchange puts the node where it belongs. */
  lemma {:induction false} SwapLinks(s: State, s': State, x: nat, i: nat)
    requires Shaped(s) && Swap(s, s', x, i) && Succeeds(s, x) && InserterOk(s, x) && LevelOk(s, s.inserters[x].level)
    ensures Shaped(s') && LevelOk(s', s.inserters[x].level)
  {
    var p := s.inserters[x];
    var l, c := p.level, s.chain[p.level];
    assert Brackets(s, p.splice, l, s.nodes[x].key);
    assert s.next[l][c[i]] == Successor(c, i);
    InsertAscends(s.nodes, c, i, x);
    InsertSpells(s.next[l], s.nodes, c, i, x);
  }

  lemma {:induction false} SwapGrows(s: State, s': State, x: nat, i: nat, l: nat, n: nat)
    requires Shaped(s) && Swap(s, s', x, i) && Succeeds(s, x) && l < MAX_HEIGHT
    ensures |s'.chain| == MAX_HEIGHT && (n in s'.chain[l] <==> n in s.chain[l] || (l == s.inserters[x].level && n == x))
  {
    InsertElements(s.chain[s.inserters[x].level], i, x, n);
  }

  lemma {:induction false} SwapKeepsOther(s: State, s': State, x: nat, i: nat, y: nat)
    requires Shaped(s) && Shaped(s') && Swap(s, s', x, i) && Succeeds(s, x)
    requires 0 < y < |s.nodes| && y != x && InserterOk(s, y) && Grows(s, s')
    ensures InserterOk(s', y)
  {
    var p := s.inserters[y];
    assert Done(s', y) == Done(s, y);
    forall l | 0 <= l < MAX_HEIGHT
      ensures y in s'.chain[l] <==> y in s.chain[l]
    {
      SwapGrows(s, s', x, i, l, y);
    }
    if p.Seeking? {
      SpliceKept(s, s', y, p.splice, p.level + 1);
    } else if p.Linking? || p.Ready? || p.Refinding? {
      SpliceKept(s, s', y, p.splice, p.level);
    } else if p.Duplicate? {
      var n :| n in s.chain[0] && 0 < n < |s.nodes| && s.nodes[n].key == s.nodes[y].key;
      assert n in s'.chain[0];
    }
  }

  lemma {:induction false} SwapKeepsSelf(s: State, s': State, x: nat, i: nat)
    requires Shaped(s) && Shaped(s') && Swap(s, s', x, i) && Succeeds(s, x) && InserterOk(s, x) && Grows(s, s')
    ensures InserterOk(s', x)
  {
    var p := s.inserters[x];
    forall l | 0 <= l < MAX_HEIGHT
      ensures x in s'.chain[l] <==> l < Done(s', x)
    {
      SwapGrows(s, s', x, i, l, x);
    }
    assert SpliceOk(s, x, p.splice, p.level + 1);
    SpliceKept(s, s', x, p.splice, p.level + 1);
  }

  lemma {:induction false} SwapNests(s: State, s': State, x: nat, i: nat)
    requires Shaped(s) && Shaped(s') && Nested(s) && Swap(s, s', x, i) && Succeeds(s, x) && InserterOk(s, x)
    ensures Nested(s') && Grows(s, s')
  {
    forall l, n | 0 <= l < MAX_HEIGHT && n in s.chain[l]
      ensures n in s'.chain[l]
    {
      SwapGrows(s, s', x, i, l, n);
    }
    forall l, m, n | 0 <= l < m < MAX_HEIGHT && n in s'.chain[m]
      ensures n in s'.chain[l]
    {
      SwapGrows(s, s', x, i, m, n);
      SwapGrows(s, s', x, i, l, n);
    }
  }

  lemma {:induction false} SwapKeeps(s: State, s': State, x: nat, i: nat)
    requires Inv(s) && Swap(s, s', x, i)
    ensures Inv(s')
  {
    assert InserterOk(s, x);
    if Succeeds(s, x) {
      SwapSucceeds(s, s', x, i);
    } else {
      SpliceKept(s, s', x, s.inserters[x].splice, s.inserters[x].level);
      assert Brackets(s, s.inserters[x].splice, s.inserters[x].level, s.nodes[x].key);
      OnlyInserterKeeps(s, s', x);
    }
  }

  lemma {:induction false} SwapSucceeds(s: State, s': State, x: nat, i: nat)
    requires Inv(s) && Swap(s, s', x, i) && Succeeds(s, x) && InserterOk(s, x)
    ensures Inv(s')
  {
    assert InserterOk(s, x) && LevelOk(s, s.inserters[x].level);
    SwapLinks(s, s', x, i);
    SwapNests(s, s', x, i);
    forall l | 0 <= l < MAX_HEIGHT
      ensures LevelOk(s', l)
    {
      assert LevelOk(s, l);
    }
    SwapKeepsSelf(s, s', x, i);
    forall y | 0 < y < |s'.nodes|
      ensures InserterOk(s', y)
    {
      if y != x {
        assert InserterOk(s, y);
        SwapKeepsOther(s, s', x, i, y);
      }
    }
    forall r | r in s'.readers
      ensures ReaderOk(s', r)
    {
      assert ReaderOk(s, r);
    }
  }

  // ----- What the operations return -----

  /** A node is linked at the bottom only if no node has its key: the list is a set. */
  lemma {:induction false} LinkedIsNew(s: State, s': State, x: nat, i: nat, n: nat)
    requires Inv(s) && Swap(s, s', x, i) && Succeeds(s, x) && s.inserters[x].level == 0
    requires n in s.chain[0] && 0 < n < |s.nodes|
    ensures s.nodes[n].key != s.nodes[x].key
  {
    var p, c := s.inserters[x], s.chain[0];
    assert InserterOk(s, x) && LevelOk(s, 0);
    assert Brackets(s, p.splice, 0, s.nodes[x].key);
    assert s.next[0][c[i]] == Successor(c, i);
    Split(s.nodes, c, i, s.nodes[x].key, n);
  }

  /** The first node of the list whose key is at least `target`, or null. */
  ghost predicate IsFirstAtLeast(s: State, target: UserKey, n: Option<nat>)
    requires Shaped(s)
  {
    && (n.Some? ==> n.value in s.chain[0] && 0 < n.value < |s.nodes| && s.nodes[n.value].key >= target)
    && forall m :: m in s.chain[0] && 0 < m < |s.nodes| && s.nodes[m].key >= target ==>
         n.Some? && s.nodes[m].key >= s.nodes[n.value].key
  }

  /** At the moment of its last load a search returns exactly the first node at or after its target. */
  lemma {:induction false} FindIsExact(s: State, s': State, r: nat)
    requires Inv(s) && Find(s, s', r) && s'.readers[r].Found?
    ensures IsFirstAtLeast(s, s'.readers[r].target, s'.readers[r].node)
  {
    var q := s.readers[r];
    assert ReaderOk(s, r) && LevelOk(s, q.level) && LevelOk(s, 0);
    var i := ReadNext(s, q.level, q.at);
    var n := s.next[q.level][q.at];
    if n.Some? && n != q.bigger && s.nodes[n.value].key == q.target {
      assert n.value in s.chain[q.level] && n.value in s.chain[0];
    } else {
      assert q.level == 0 && NotBelow(s, 0, n, q.target);
      forall m | m in s.chain[0] && 0 < m < |s.nodes| && s.nodes[m].key >= q.target
        ensures n.Some? && s.nodes[m].key >= s.nodes[n.value].key
      {
        Split(s.nodes, s.chain[0], i, q.target, m);
      }
    }
  }

  lemma {:induction false} FindKeepsReader(s: State, s': State, r: nat)
    requires Inv(s) && Find(s, s', r)
    ensures Shaped(s') && ReaderOk(s', r)
  {
    var q := s.readers[r];
    assert ReaderOk(s, r) && LevelOk(s, q.level);
    var i := ReadNext(s, q.level, q.at);
    var n := s.next[q.level][q.at];
    assert n.Some? ==> n.value in s.chain[q.level] && 0 < n.value < |s.nodes|;
  }

  /** The last node of the list whose key is below `target`, or the head. */
  ghost predicate IsLastBelow(s: State, target: UserKey, n: nat)
    requires Shaped(s)
  {
    && Below(s, 0, n, target)
    && forall m :: m in s.chain[0] && 0 < m < |s.nodes| && s.nodes[m].key < target ==>
         n > 0 && s.nodes[m].key <= s.nodes[n].key
  }

  /** At the moment of its last load a search backwards returns exactly the last node before its target. */
  lemma {:induction false} ApproachIsExact(s: State, s': State, r: nat)
    requires Inv(s) && Approach(s, s', r) && s'.readers[r].Reached?
    ensures IsLastBelow(s, s'.readers[r].target, s'.readers[r].last)
  {
    var q, c := s.readers[r], s.chain[0];
    assert ReaderOk(s, r) && LevelOk(s, 0);
    var i := ReadNext(s, 0, q.at);
    forall m | m in c && 0 < m < |s.nodes| && s.nodes[m].key < q.target
      ensures q.at > 0 && s.nodes[m].key <= s.nodes[q.at].key
    {
      var j :| 0 <= j < |c| && c[j] == m;
      NothingBetween(s.nodes, c, i, j, q.target);
    }
  }

  /** When the pointer from position `i` leads past `key`, all before `key` is up to `i`. */
  lemma {:induction false} NothingBetween(nodes: seq<Node>, c: seq<nat>, i: nat, j: nat, key: UserKey)
    requires Ascends(nodes, c) && i < |c| && 0 < j < |c| && nodes[c[j]].key < key
    requires i + 1 < |c| ==> nodes[c[i + 1]].key >= key
    ensures 0 < i && j <= i && nodes[c[j]].key <= nodes[c[i]].key
  {
  }

  lemma {:induction false} ApproachKeepsReader(s: State, s': State, r: nat)
    requires Inv(s) && Approach(s, s', r)
    ensures Shaped(s') && ReaderOk(s', r)
  {
    var q := s.readers[r];
    assert ReaderOk(s, r) && LevelOk(s, q.level);
    var i := ReadNext(s, q.level, q.at);
    var n := s.next[q.level][q.at];
    assert n.Some? ==> n.value in s.chain[q.level] && 0 < n.value < |s.nodes|;
  }

  /** No node of the list has a larger key; the head if there is none. */
  ghost predicate IsLast(s: State, n: nat)
    requires Shaped(s)
  {
    && n in s.chain[0] && n < |s.nodes|
    && forall m :: m in s.chain[0] && 0 < m < |s.nodes| ==> n > 0 && s.nodes[m].key <= s.nodes[n].key
  }

  /** At the moment of its last load the race to the end returns exactly the last node. */
  lemma {:induction false} RaceIsExact(s: State, s': State, r: nat)
    requires Inv(s) && Race(s, s', r) && s'.readers[r].Ended?
    ensures IsLast(s, s'.readers[r].last)
  {
    var q, c := s.readers[r], s.chain[0];
    assert ReaderOk(s, r) && LevelOk(s, 0);
    var i := ReadNext(s, 0, q.at);
    forall m | m in c && 0 < m < |s.nodes|
      ensures q.at > 0 && s.nodes[m].key <= s.nodes[q.at].key
    {
      var j :| 0 <= j < |c| && c[j] == m;
      assert j < i ==> s.nodes[c[j]].key < s.nodes[c[i]].key;
    }
  }

  lemma {:induction false} RaceKeepsReader(s: State, s': State, r: nat)
    requires Inv(s) && Race(s, s', r)
    ensures Shaped(s') && ReaderOk(s', r)
  {
    var q := s.readers[r];
    assert ReaderOk(s, r) && LevelOk(s, q.level);
    var i := ReadNext(s, q.level, q.at);
    var n := s.next[q.level][q.at];
    assert n.Some? ==> n.value in s.chain[q.level] && 0 < n.value < |s.nodes|;
  }

  lemma {:induction false} ReaderMoves(s: State, s': State, r: nat)
    requires Inv(s) && s' == s.(readers := s'.readers) && r in s'.readers && s'.readers == s.readers[r := s'.readers[r]]
    requires ReaderOk(s', r)
    ensures Inv(s')
  {
    forall l | 0 <= l < MAX_HEIGHT
      ensures LevelOk(s', l)
    {
      assert LevelOk(s, l);
    }
    forall y | 0 < y < |s'.nodes|
      ensures InserterOk(s', y)
    {
      assert InserterOk(s, y);
      InserterSame(s, s', y);
    }
    forall q | q in s'.readers
      ensures ReaderOk(s', q)
    {
      assert q != r ==> ReaderOk(s, q);
    }
  }

  lemma {:induction false} InserterSame(s: State, s': State, y: nat)
    requires Shaped(s) && s' == s.(readers := s'.readers) && 0 < y < |s.nodes| && InserterOk(s, y)
    ensures InserterOk(s', y)
  {
    var p := s.inserters[y];
    if p.Seeking? {
      SpliceKept(s, s', y, p.splice, p.level + 1);
    } else if p.Linking? || p.Ready? || p.Refinding? {
      SpliceKept(s, s', y, p.splice, p.level);
    }
  }

  lemma {:induction false} BeginKeeps(s: State, s': State, r: nat, q: Reader)
    requires Inv(s) && Begin(s, s', r, q)
    ensures Inv(s')
  {
    var l := s.maxHeight - 1;
    assert LevelOk(s, l) && s.chain[l][0] == 0;
    ReaderMoves(s, s', r);
  }

  // ----- Every run -----

  lemma {:induction false} InitHasInv(s: State)
    requires Init(s)
    ensures Inv(s)
  {
    forall l | 0 <= l < MAX_HEIGHT
      ensures LevelOk(s, l)
    {
    }
    forall x | 0 < x < |s.nodes|
      ensures InserterOk(s, x)
    {
      assert s.inserters[x] == Fresh;
    }
  }

  lemma {:induction false} StepKeepsInv(s: State, s': State)
    requires Inv(s) && Step(s, s')
    ensures Inv(s')
  {
    if x :| InserterStep(s, s', x) {
      InserterStepKeeps(s, s', x);
    } else if r, q :| Begin(s, s', r, q) {
      BeginKeeps(s, s', r, q);
    } else {
      var r :| ReaderStep(s, s', r);
      ReaderStepKeeps(s, s', r);
    }
  }

  lemma {:induction false} ReaderStepKeeps(s: State, s': State, r: nat)
    requires Inv(s) && ReaderStep(s, s', r)
    ensures Inv(s')
  {
    if Find(s, s', r) {
      FindKeepsReader(s, s', r);
    } else if Approach(s, s', r) {
      ApproachKeepsReader(s, s', r);
    } else {
      RaceKeepsReader(s, s', r);
    }
    ReaderMoves(s, s', r);
  }

  lemma {:induction false} InserterStepKeeps(s: State, s': State, x: nat)
    requires Inv(s) && InserterStep(s, s', x)
    ensures Inv(s')
  {
    if ReadHeight(s, s', x) || RaiseHeight(s, s', x) {
      HeightKeeps(s, s', x);
    } else if Seek(s, s', x) {
      SeekKeeps(s, s', x);
    } else if Prepare(s, s', x) {
      PrepareKeeps(s, s', x);
    } else if i :| Swap(s, s', x, i) {
      SwapKeeps(s, s', x, i);
    } else {
      RefindKeeps(s, s', x);
    }
  }

  lemma {:induction false} RunKeepsInv(tr: seq<State>)
    requires Run(tr)
    ensures Inv(Last(tr))
  {
    if |tr| == 1 {
      InitHasInv(Last(tr));
    } else {
      var before := tr[..|tr| - 1];
      RunKeepsInv(before);
      StepKeepsInv(Last(before), Last(tr));
    }
  }

  /** At any moment a node is on exactly the levels its inserter has linked; in particular the list holds
      exactly the nodes whose exchange at the bottom succeeded, in strictly ascending order. */
  lemma {:induction false} LinkedSoFar(tr: seq<State>, x: nat, l: nat)
    requires Run(tr) && 0 < x < |Last(tr).nodes| && l < MAX_HEIGHT
    ensures var s := Last(tr);
            && Shaped(s) && (x in s.chain[l] <==> l < Done(s, x))
            && Ascends(s.nodes, s.chain[l]) && Spells(s.next[l], s.chain[l])
  {
    RunKeepsInv(tr);
    assert InserterOk(Last(tr), x) && LevelOk(Last(tr), l);
  }

  /** The key of node `x` is in the list, and `x` itself is on every level of its height, or on none
      if another node has its key. */
  ghost predicate Settled(s: State, x: nat)
    requires Shaped(s) && 0 < x < |s.nodes|
  {
    && (exists n :: n in s.chain[0] && 0 < n < |s.nodes| && s.nodes[n].key == s.nodes[x].key)
    && forall l :: 0 <= l < MAX_HEIGHT ==> (x in s.chain[l] <==> s.inserters[x].Linked? && l < s.nodes[x].height)
  }

  lemma {:induction false} ReturnedIsSettled(s: State, x: nat)
    requires Shaped(s) && 0 < x < |s.nodes| && InserterOk(s, x) && (s.inserters[x].Linked? || s.inserters[x].Duplicate?)
    ensures Settled(s, x)
  {
  }

  /** Once every insertion has returned, the list holds each key once, in order, and each level holds
      exactly the nodes that reach it. */
  lemma {:induction false} AllInserted(tr: seq<State>)
    requires Run(tr)
    requires forall x :: 0 < x < |Last(tr).inserters| ==>
               Last(tr).inserters[x].Linked? || Last(tr).inserters[x].Duplicate?
    ensures var s := Last(tr);
            && Shaped(s)
            && (forall x :: 0 < x < |s.nodes| ==> Settled(s, x))
            && forall l :: 0 <= l < MAX_HEIGHT ==> Ascends(s.nodes, s.chain[l])
  {
    RunKeepsInv(tr);
    var s := Last(tr);
    forall x | 0 < x < |s.nodes|
      ensures Settled(s, x)
    {
      ReturnedIsSettled(s, x);
    }
    forall l | 0 <= l < MAX_HEIGHT
      ensures Ascends(s.nodes, s.chain[l])
    {
      assert LevelOk(s, l);
    }
  }
}
