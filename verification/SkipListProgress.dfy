/**
 The skip list makes progress: an insertion or a search left alone returns, from every state a run can reach.
 */
module SkipListProgress {
  import opened Keys
  import opened SkipList

  // ----- How much of a chain is left -----

  ghost function Index(c: seq<nat>, n: nat): (i: nat)
    requires n in c
    ensures i < |c| && c[i] == n
  {
    var i :| 0 <= i < |c| && c[i] == n;
    i
  }

  lemma {:induction false} IndexIs(nodes: seq<Node>, c: seq<nat>, i: nat)
    requires Ascends(nodes, c) && i < |c|
    ensures Index(c, c[i]) == i
  {
    forall a, b | 0 <= a < b < |c|
      ensures c[a] != c[b]
    {
      assert a > 0 ==> nodes[c[a]].key < nodes[c[b]].key;
    }
  }

  /** How many nodes of level `l` are behind `n`. */
  ghost function Left(s: State, l: nat, n: nat): nat {
    if l < |s.chain| && n in s.chain[l] then |s.chain[l]| - Index(s.chain[l], n) else 0
  }

  lemma {:induction false} SameLeft(s: State, s': State)
    requires s'.chain == s.chain
    ensures forall l, n :: Left(s', l, n) == Left(s, l, n)
  {
  }

  /** A pointer followed leaves less. */
  lemma {:induction false} LeftShrinks(s: State, l: nat, n: nat)
    requires Shaped(s) && l < MAX_HEIGHT && LevelOk(s, l) && n in s.chain[l] && n < |s.nodes| && s.next[l][n].Some?
    ensures var m := s.next[l][n].value;
            m in s.chain[l] && 0 < m < |s.nodes| && Left(s, l, m) < Left(s, l, n)
  {
    var c := s.chain[l];
    var i := ReadNext(s, l, n);
    IndexIs(s.nodes, c, i);
    IndexIs(s.nodes, c, i + 1);
  }

  // ----- How far an inserter is from its return -----

  /** The predecessor's pointer is no longer what the splice says. */
  predicate IsStale(s: State, l: nat, sp: Splice) {
    !(&& l < |s.next| && l in sp.prev && l in sp.next && sp.prev[l] < |s.next[l]|
      && s.next[l][sp.prev[l]] == sp.next[l])
  }

  /** The levels the inserter has yet to link. */
  function ToLink(s: State, x: nat): nat
    requires x < |s.inserters| && x < |s.nodes|
  {
    match s.inserters[x]
    case Linked => 0
    case Duplicate => 0
    case Linking(l, _) => if l < s.nodes[x].height then s.nodes[x].height - l else 0
    case Ready(l, _) => if l < s.nodes[x].height then s.nodes[x].height - l else 0
    case Refinding(l, _, _) => if l < s.nodes[x].height then s.nodes[x].height - l else 0
    case _ => s.nodes[x].height
  }

  /** What it has yet to do on its level. */
  function Stage(s: State, x: nat): nat
    requires x < |s.inserters| && x < |s.nodes|
  {
    match s.inserters[x]
    case Fresh => 10
    case Raising(seen) => if s.nodes[x].height <= seen || s.maxHeight == seen then 8 else 9
    case Seeking(_, _, _, _, _) => 7
    case Linking(l, sp) => if IsStale(s, l, sp) then 6 else 3
    case Ready(l, sp) => if IsStale(s, l, sp) then 5 else 2
    case Refinding(_, _, _) => 4
    case Linked => 0
    case Duplicate => 0
  }

  function Deep(s: State, x: nat): nat
    requires x < |s.inserters|
  {
    if s.inserters[x].Seeking? then s.inserters[x].level else 0
  }

  ghost function Ahead(s: State, x: nat): nat
    requires x < |s.inserters|
  {
    match s.inserters[x]
    case Seeking(l, b, _, _, _) => Left(s, l, b)
    case Refinding(l, b, _) => Left(s, l, b)
    case _ => 0
  }

  predicate Returned(s: State, x: nat)
    requires x < |s.inserters|
  {
    s.inserters[x].Linked? || s.inserters[x].Duplicate?
  }

  /** A step of inserter `x`, after which it has less to do. */
  ghost predicate Nearer(s: State, s': State, x: nat)
    requires Shaped(s) && x < |s.nodes|
  {
    && InserterStep(s, s', x) && |s'.inserters| == |s'.nodes| == |s.nodes|
    && (|| ToLink(s', x) < ToLink(s, x)
        || (ToLink(s', x) == ToLink(s, x)
            && (|| Stage(s', x) < Stage(s, x)
                || (Stage(s', x) == Stage(s, x)
                    && (Deep(s', x) < Deep(s, x) || (Deep(s', x) == Deep(s, x) && Ahead(s', x) < Ahead(s, x)))))))
  }

  lemma {:induction false} HeightGoesOn(s: State, x: nat) returns (s': State)
    requires Shaped(s) && 0 < x < |s.nodes| && (s.inserters[x].Fresh? || s.inserters[x].Raising?)
    ensures Nearer(s, s', x)
  {
    if s.inserters[x].Fresh? {
      s' := SetInserter(s, x, Raising(s.maxHeight));
      assert ReadHeight(s, s', x);
    } else {
      var seen, h := s.inserters[x].seen, s.nodes[x].height;
      s' := if h <= seen then SetInserter(s, x, Start(seen))
            else if s.maxHeight == seen then SetInserter(s, x, Start(h)).(maxHeight := h)
            else SetInserter(s, x, Raising(s.maxHeight));
      assert RaiseHeight(s, s', x);
    }
  }

  lemma {:induction false} SeekFills(s: State, x: nat, n: Option<nat>) returns (s': State)
    requires Shaped(s) && 0 < x < |s.nodes| && s.inserters[x].Seeking?
    requires var p := s.inserters[x];
             && p.level < MAX_HEIGHT && p.before < |s.nodes| && n == s.next[p.level][p.before]
             && (n == p.after || !KeyIsAfter(s, s.nodes[x].key, n))
    ensures Nearer(s, s', x)
  {
    var p := s.inserters[x];
    var filled := Splice(p.splice.prev[p.level := p.before], p.splice.next[p.level := n]);
    s' := SetInserter(s, x, if p.level == 0 then Linking(0, filled)
                            else Seeking(p.level - 1, p.before, n, p.top, filled));
    assert Seek(s, s', x);
  }

  lemma {:induction false} SeekAdvances(s: State, x: nat, n: Option<nat>) returns (s': State)
    requires Shaped(s) && 0 < x < |s.nodes| && s.inserters[x].Seeking?
    requires var p := s.inserters[x];
             && p.level < MAX_HEIGHT && p.before < |s.nodes| && n == s.next[p.level][p.before]
             && n != p.after && KeyIsAfter(s, s.nodes[x].key, n)
             && Left(s, p.level, n.value) < Left(s, p.level, p.before)
    ensures Nearer(s, s', x)
  {
    var p := s.inserters[x];
    s' := SetInserter(s, x, Seeking(p.level, n.value, p.after, p.top, p.splice));
    assert Seek(s, s', x);
    SameLeft(s, s');
  }

  lemma {:induction false} SeekGoesOn(s: State, x: nat) returns (s': State)
    requires Shaped(s) && 0 < x < |s.nodes| && s.inserters[x].Seeking?
    requires var p := s.inserters[x]; p.level < MAX_HEIGHT && LevelOk(s, p.level) && p.before in s.chain[p.level]
    ensures Nearer(s, s', x)
  {
    var p := s.inserters[x];
    var i := ReadNext(s, p.level, p.before);
    var n := s.next[p.level][p.before];
    if n == p.after || !KeyIsAfter(s, s.nodes[x].key, n) {
      s' := SeekFills(s, x, n);
    } else {
      LeftShrinks(s, p.level, p.before);
      s' := SeekAdvances(s, x, n);
    }
  }

  lemma {:induction false} PrepareGoesOn(s: State, x: nat) returns (s': State)
    requires Shaped(s) && 0 < x < |s.nodes| && s.inserters[x].Linking?
    requires var p := s.inserters[x];
             && p.level < s.nodes[x].height && Brackets(s, p.splice, p.level, s.nodes[x].key)
             && p.splice.prev[p.level] != x
    ensures Nearer(s, s', x)
  {
    var p := s.inserters[x];
    var n, b := p.splice.next[p.level], p.splice.prev[p.level];
    if p.level == 0 && ((n.Some? && n.value < |s.nodes| && s.nodes[x].key >= s.nodes[n.value].key)
                        || (0 < b < |s.nodes| && s.nodes[b].key >= s.nodes[x].key)) {
      s' := SetInserter(s, x, Duplicate);
    } else {
      s' := SetNext(SetInserter(s, x, Ready(p.level, p.splice)), p.level, x, n);
    }
    assert Prepare(s, s', x);
  }

  lemma {:induction false} SwapGoesOn(s: State, x: nat) returns (s': State)
    requires Shaped(s) && 0 < x < |s.nodes| && s.inserters[x].Ready?
    requires var p := s.inserters[x];
             p.level < s.nodes[x].height && Brackets(s, p.splice, p.level, s.nodes[x].key)
    ensures Nearer(s, s', x)
  {
    var p := s.inserters[x];
    var l, b := p.level, p.splice.prev[p.level];
    var i := Index(s.chain[l], b);
    if s.next[l][b] == p.splice.next[l] {
      var next := if l + 1 < s.nodes[x].height then Linking(l + 1, p.splice) else Linked;
      s' := SetNext(SetInserter(s, x, next), l, b, Some(x)).(
              chain := s.chain[l := InsertAfter(s.chain[l], i, x)]);
    } else {
      s' := SetInserter(s, x, Refinding(l, b, p.splice));
    }
    assert Swap(s, s', x, i);
  }

  lemma {:induction false} RefindGoesOn(s: State, x: nat) returns (s': State)
    requires Shaped(s) && 0 < x < |s.nodes| && s.inserters[x].Refinding?
    requires var p := s.inserters[x]; p.level < MAX_HEIGHT && LevelOk(s, p.level) && p.before in s.chain[p.level]
    ensures Nearer(s, s', x)
  {
    var p := s.inserters[x];
    var i := ReadNext(s, p.level, p.before);
    var n := s.next[p.level][p.before];
    if n == None || !KeyIsAfter(s, s.nodes[x].key, n) {
      var filled := Splice(p.splice.prev[p.level := p.before], p.splice.next[p.level := n]);
      s' := SetInserter(s, x, Linking(p.level, filled));
    } else {
      LeftShrinks(s, p.level, p.before);
      s' := SetInserter(s, x, Refinding(p.level, n.value, p.splice));
      SameLeft(s, s');
    }
    assert Refind(s, s', x);
  }

  lemma {:induction false} InserterGoesOn(s: State, x: nat) returns (s': State)
    requires Inv(s) && 0 < x < |s.nodes| && !Returned(s, x)
    ensures Nearer(s, s', x)
  {
    assert InserterOk(s, x);
    var p := s.inserters[x];
    if p.Fresh? || p.Raising? {
      s' := HeightGoesOn(s, x);
    } else if p.Seeking? {
      assert LevelOk(s, p.level);
      s' := SeekGoesOn(s, x);
    } else if p.Linking? {
      assert Brackets(s, p.splice, p.level, s.nodes[x].key);
      s' := PrepareGoesOn(s, x);
    } else if p.Ready? {
      assert Brackets(s, p.splice, p.level, s.nodes[x].key);
      s' := SwapGoesOn(s, x);
    } else {
      assert LevelOk(s, p.level);
      s' := RefindGoesOn(s, x);
    }
  }

  ghost predicate InserterMoves(s: State, s': State, x: nat) {
    Shaped(s) && InserterStep(s, s', x)
  }

  /** Steps of inserter `x` alone. */
  ghost predicate Alone(run: seq<State>, x: nat) {
    forall i, j :: 0 <= i < |run| && j == i + 1 && j < |run| ==> InserterMoves(run[i], run[j], x)
  }

  lemma {:induction false} AloneFirst(s: State, run: seq<State>, x: nat)
    requires run != [] && Alone(run, x) && InserterMoves(s, run[0], x)
    ensures Alone([s] + run, x)
  {
    var longer := [s] + run;
    forall i, j | 0 <= i < |longer| && j == i + 1 && j < |longer|
      ensures InserterMoves(longer[i], longer[j], x)
    {
      if i > 0 {
        var k := i - 1;
        assert longer[i] == run[k] && longer[j] == run[i];
        assert InserterMoves(run[k], run[i], x);
      }
    }
  }

  /** From every state a run can reach, an insertion left alone returns, with its key in the list. */
  lemma {:induction false} InsertionReturns(s: State, x: nat) returns (run: seq<State>)
    requires Inv(s) && 0 < x < |s.nodes|
    ensures run != [] && run[0] == s && Alone(run, x)
    ensures Inv(Last(run)) && x < |Last(run).nodes| && Returned(Last(run), x) && Settled(Last(run), x)
    decreases ToLink(s, x), Stage(s, x), Deep(s, x), Ahead(s, x)
  {
    if Returned(s, x) {
      run := [s];
      assert InserterOk(s, x);
      ReturnedIsSettled(s, x);
    } else {
      var s' := InserterGoesOn(s, x);
      assert Step(s, s');
      StepKeepsInv(s, s');
      var rest := InsertionReturns(s', x);
      run := [s] + rest;
      AloneFirst(s, rest, x);
    }
  }

  // ----- The height of the list -----

  /** What inserter `x` knows of max_height_. */
  ghost predicate KnowsHeight(s: State, x: nat)
    requires x < |s.inserters| && x < |s.nodes|
  {
    match s.inserters[x]
    case Fresh => true
    case Raising(seen) => seen <= s.maxHeight
    case _ => s.nodes[x].height <= s.maxHeight
  }

  ghost predicate IsHeight(s: State) {
    s.maxHeight == 1 || exists x :: 0 < x < |s.nodes| && s.nodes[x].height == s.maxHeight
  }

  ghost predicate HeightsOk(s: State)
    requires Shaped(s)
  {
    IsHeight(s) && forall x :: 0 < x < |s.nodes| ==> KnowsHeight(s, x)
  }

  lemma {:induction false} InserterKeepsHeights(s: State, s': State, x: nat)
    requires Shaped(s) && HeightsOk(s) && InserterStep(s, s', x) && Shaped(s')
    ensures HeightsOk(s')
  {
    OneInserter(s, s', x);
    assert KnowsHeight(s, x);
    forall y | 0 < y < |s'.nodes|
      ensures KnowsHeight(s', y)
    {
      assert KnowsHeight(s, y);
    }
    if s'.maxHeight == s.maxHeight && s.maxHeight != 1 {
      var y :| 0 < y < |s.nodes| && s.nodes[y].height == s.maxHeight;
      assert s'.nodes[y].height == s'.maxHeight;
    }
  }

  /** Only `x` moves, and it knows max_height_ when it has raised it. */
  lemma {:induction false} OneInserter(s: State, s': State, x: nat)
    requires Shaped(s) && InserterStep(s, s', x)
    ensures 0 < x < |s.nodes| && s'.nodes == s.nodes && |s'.inserters| == |s.inserters|
    ensures forall y :: 0 <= y < |s.inserters| && y != x ==> s'.inserters[y] == s.inserters[y]
    ensures s.maxHeight <= s'.maxHeight
    ensures s'.maxHeight == s.maxHeight || s'.maxHeight == s.nodes[x].height
    ensures KnowsHeight(s, x) ==> KnowsHeight(s', x)
  {
  }

  lemma {:induction false} RunKeepsHeights(tr: seq<State>)
    requires Run(tr)
    ensures Shaped(Last(tr)) && HeightsOk(Last(tr))
  {
    RunKeepsInv(tr);
    if |tr| > 1 {
      var s, s' := Last(tr[..|tr| - 1]), Last(tr);
      RunKeepsHeights(tr[..|tr| - 1]);
      if x :| InserterStep(s, s', x) {
        InserterKeepsHeights(s, s', x);
      } else {
        ReadersKeepHeights(s, s');
      }
    }
  }

  lemma {:induction false} ReadersKeepHeights(s: State, s': State)
    requires Shaped(s) && HeightsOk(s) && s' == s.(readers := s'.readers)
    ensures HeightsOk(s')
  {
    forall y | 0 < y < |s'.nodes|
      ensures KnowsHeight(s', y)
    {
      assert KnowsHeight(s, y);
    }
    if s.maxHeight != 1 {
      var y :| 0 < y < |s.nodes| && s.nodes[y].height == s.maxHeight;
      assert s'.nodes[y].height == s'.maxHeight;
    }
  }

  /** In every run max_height_ is the height of a node, or one, and no node is linked above it: a search that starts
      there misses no level. */
  lemma {:induction false} NothingAbove(tr: seq<State>, l: nat)
    requires Run(tr) && Last(tr).maxHeight <= l < MAX_HEIGHT
    ensures IsHeight(Last(tr)) && Shaped(Last(tr)) && Last(tr).chain[l] == [0]
  {
    var s := Last(tr);
    RunKeepsInv(tr);
    RunKeepsHeights(tr);
    forall x | 0 < x < |s.nodes|
      ensures x !in s.chain[l]
    {
      NotSoHigh(s, x, l);
    }
    assert LevelOk(s, l);
    OnlyHead(s.nodes, s.chain[l]);
  }

  lemma {:induction false} OnlyHead(nodes: seq<Node>, c: seq<nat>)
    requires Ascends(nodes, c) && forall x :: 0 < x < |nodes| ==> x !in c
    ensures c == [0]
  {
    if |c| > 1 {
      var x := Second(nodes, c);
    }
  }

  lemma {:induction false} Second(nodes: seq<Node>, c: seq<nat>) returns (x: nat)
    requires Ascends(nodes, c) && |c| > 1
    ensures x in c && 0 < x < |nodes|
  {
    x := c[1];
  }

  lemma {:induction false} NotSoHigh(s: State, x: nat, l: nat)
    requires Shaped(s) && 0 < x < |s.nodes| && InserterOk(s, x) && KnowsHeight(s, x) && s.maxHeight <= l < MAX_HEIGHT
    ensures x !in s.chain[l]
  {
    assert Done(s, x) <= l;
  }

  // ----- Readers -----

  function Level(q: Reader): nat {
    match q
    case Searching(_, _, l, _) => l + 1
    case Approaching(_, _, l, _) => l + 1
    case Racing(_, l) => l + 1
    case _ => 0
  }

  ghost function Behind(s: State, q: Reader): nat {
    match q
    case Searching(_, at, l, _) => Left(s, l, at)
    case Approaching(_, at, l, _) => Left(s, l, at)
    case Racing(at, l) => Left(s, l, at)
    case _ => 0
  }

  ghost predicate ReadsOn(s: State, s': State, r: nat)
    requires Shaped(s) && r in s.readers
  {
    && ReaderStep(s, s', r) && r in s'.readers && s' == s.(readers := s'.readers)
    && (|| Level(s'.readers[r]) < Level(s.readers[r])
        || (Level(s'.readers[r]) == Level(s.readers[r]) && Behind(s', s'.readers[r]) < Behind(s, s.readers[r])))
  }

  lemma {:induction false} FindGoesOn(s: State, r: nat, n: Option<nat>) returns (s': State)
    requires Shaped(s) && r in s.readers && s.readers[r].Searching?
    requires var q := s.readers[r];
             && q.level < MAX_HEIGHT && q.at < |s.nodes| && n == s.next[q.level][q.at]
             && (n.Some? ==> Left(s, q.level, n.value) < Left(s, q.level, q.at))
    ensures ReadsOn(s, s', r)
  {
    var q := s.readers[r];
    var less := n != q.bigger && KeyIsAfter(s, q.target, n);
    var same := n != q.bigger && n.Some? && n.value < |s.nodes| && s.nodes[n.value].key == q.target;
    s' := s.(readers := s.readers[r :=
            if same || (!less && q.level == 0) then Found(q.target, n)
            else if less then Searching(q.target, n.value, q.level, q.bigger)
            else Searching(q.target, q.at, q.level - 1, n)]);
    assert Find(s, s', r) && s'.chain == s.chain;
    SameLeft(s, s');
  }

  lemma {:induction false} ApproachGoesOn(s: State, r: nat, n: Option<nat>) returns (s': State)
    requires Shaped(s) && r in s.readers && s.readers[r].Approaching?
    requires var q := s.readers[r];
             && q.level < MAX_HEIGHT && q.at < |s.nodes| && n == s.next[q.level][q.at]
             && (n.Some? ==> Left(s, q.level, n.value) < Left(s, q.level, q.at))
    ensures ReadsOn(s, s', r)
  {
    var q := s.readers[r];
    s' := s.(readers := s.readers[r :=
            if n != q.notAfter && KeyIsAfter(s, q.target, n) then Approaching(q.target, n.value, q.level, q.notAfter)
            else if q.level == 0 then Reached(q.target, q.at)
            else Approaching(q.target, q.at, q.level - 1, n)]);
    assert Approach(s, s', r);
    SameLeft(s, s');
  }

  lemma {:induction false} RaceGoesOn(s: State, r: nat, n: Option<nat>) returns (s': State)
    requires Shaped(s) && r in s.readers && s.readers[r].Racing?
    requires var q := s.readers[r];
             && q.level < MAX_HEIGHT && q.at < |s.nodes| && n == s.next[q.level][q.at]
             && (n.Some? ==> Left(s, q.level, n.value) < Left(s, q.level, q.at))
    ensures ReadsOn(s, s', r)
  {
    var q := s.readers[r];
    s' := s.(readers := s.readers[r :=
            if n.Some? then Racing(n.value, q.level)
            else if q.level == 0 then Ended(q.at)
            else Racing(q.at, q.level - 1)]);
    assert Race(s, s', r);
    SameLeft(s, s');
  }

  /** One round of whichever search it is. */
  lemma {:induction false} ReaderGoesOn(s: State, r: nat) returns (s': State)
    requires Inv(s) && r in s.readers && Busy(s.readers[r])
    ensures ReadsOn(s, s', r)
  {
    assert ReaderOk(s, r);
    var q := s.readers[r];
    assert LevelOk(s, q.level);
    var n := s.next[q.level][q.at];
    if n.Some? {
      LeftShrinks(s, q.level, q.at);
    }
    if q.Searching? {
      s' := FindGoesOn(s, r, n);
    } else if q.Approaching? {
      s' := ApproachGoesOn(s, r, n);
    } else {
      s' := RaceGoesOn(s, r, n);
    }
  }

  ghost predicate ReaderTakes(s: State, s': State, r: nat) {
    Shaped(s) && ReaderStep(s, s', r)
  }

  /** Steps of reader `r` alone. */
  ghost predicate ReadsAlone(run: seq<State>, r: nat) {
    forall i, j :: 0 <= i < |run| && j == i + 1 && j < |run| ==> ReaderTakes(run[i], run[j], r)
  }

  lemma {:induction false} ReadsFirst(s: State, run: seq<State>, r: nat)
    requires run != [] && ReadsAlone(run, r) && ReaderTakes(s, run[0], r)
    ensures ReadsAlone([s] + run, r)
  {
    var longer := [s] + run;
    forall i, j | 0 <= i < |longer| && j == i + 1 && j < |longer|
      ensures ReaderTakes(longer[i], longer[j], r)
    {
      if i > 0 {
        var k := i - 1;
        assert longer[i] == run[k] && longer[j] == run[i];
        assert ReaderTakes(run[k], run[i], r);
      }
    }
  }

  /** From every state a run can reach, a search left alone returns. */
  lemma {:induction false} SearchReturns(s: State, r: nat) returns (run: seq<State>)
    requires Inv(s) && r in s.readers
    ensures run != [] && run[0] == s && ReadsAlone(run, r)
    ensures r in Last(run).readers && !Busy(Last(run).readers[r])
    decreases Level(s.readers[r]), Behind(s, s.readers[r])
  {
    if !Busy(s.readers[r]) {
      run := [s];
    } else {
      var s' := ReaderGoesOn(s, r);
      ReaderStepKeeps(s, s', r);
      var rest := SearchReturns(s', r);
      run := [s] + rest;
      ReadsFirst(s, rest, r);
    }
  }
}
