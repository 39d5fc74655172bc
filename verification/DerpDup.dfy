/** Several connections under one key: which of them is active. */
module DerpDup {
  import opened Wrappers
  import opened DerpTypes

  /** `last` is the active connection; `history` logs who has sent, newest last. */
  datatype DupSet = DupSet(members: set<ConnNum>, last: Option<ConnNum>, history: seq<ConnNum>)

  ghost predicate NoEqualNeighbours(s: seq<ConnNum>) {
    forall i, j :: 0 <= i && j == i + 1 && j < |s| ==> s[i] != s[j]
  }

  /** What every reachable dup set satisfies. */
  ghost predicate Valid(ds: DupSet) {
    && |ds.members| >= 2
    && ds.last.Some? && ds.last.value in ds.members
    && (forall x :: x in ds.history ==> x in ds.members)
    && NoEqualNeighbours(ds.history)
    && (forall x, y :: x in ds.members && y in ds.members && x !in ds.history && y !in ds.history ==> x == y)
  }

  /** What is kept, and `v` after it, unless it is no member or there already. */
  function Extended(kept: seq<ConnNum>, v: ConnNum, members: set<ConnNum>): seq<ConnNum> {
    if v in members && (kept == [] || kept[|kept| - 1] != v) then kept + [v] else kept
  }

  /** The history restricted to `members`, with equal neighbours merged. */
  function Trim(history: seq<ConnNum>, members: set<ConnNum>): seq<ConnNum> {
    if history == [] then []
    else Extended(Trim(history[..|history| - 1], members), history[|history| - 1], members)
  }

  /** Trimming keeps exactly the members that occur, and leaves no equal neighbours. */
  lemma {:induction false} TrimKeeps(history: seq<ConnNum>, members: set<ConnNum>)
    ensures |Trim(history, members)| <= |history|
    ensures NoEqualNeighbours(Trim(history, members))
    ensures forall x :: x in Trim(history, members) <==> x in history && x in members
  {
    if history != [] {
      var n := |history| - 1;
      TrimKeeps(history[..n], members);
      assert history == history[..n] + [history[n]];
    }
  }

  /** `at` says where in the history each entry of `kept` comes from. */
  ghost predicate Picks(history: seq<ConnNum>, kept: seq<ConnNum>, at: seq<nat>) {
    && |at| == |kept|
    && (forall i :: 0 <= i < |at| ==> at[i] < |history| && history[at[i]] == kept[i])
    && (forall i, j :: 0 <= i < j < |at| ==> at[i] < at[j])
  }

  /** What is kept of a history: entries of `members` in their order, and none is left out but for
      repeating the one kept before it. */
  ghost predicate KeepsOrder(history: seq<ConnNum>, members: set<ConnNum>, kept: seq<ConnNum>) {
    exists at :: Picks(history, kept, at) && forall p :: 0 <= p < |history| && history[p] in members ==> Covered(history, at, p)
  }

  /** The entry at `p`, or an equal one that only entries not kept separate it from, is picked. */
  ghost predicate Covered(history: seq<ConnNum>, at: seq<nat>, p: nat)
    requires p < |history|
  {
    exists i :: 0 <= i < |at| && at[i] <= p && at[i] < |history| && history[at[i]] == history[p]
                && forall j :: i < j < |at| ==> at[j] > p
  }

  /** One entry more, picked or not. */
  lemma CoveredStill(history: seq<ConnNum>, n: nat, at: seq<nat>, more: seq<nat>, p: nat)
    requires p < n < |history| && more in {[], [n]} && Covered(history[..n], at, p)
    ensures Covered(history, at + more, p)
  {
    var h := history[..n];
    var i :| 0 <= i < |at| && at[i] <= p && at[i] < |h| && h[at[i]] == h[p] && forall j :: i < j < |at| ==> at[j] > p;
    var at' := at + more;
    assert at'[i] == at[i] && history[at'[i]] == history[p];
    assert forall j :: i < j < |at'| ==> at'[j] > p;
  }

  lemma PicksOneMore(history: seq<ConnNum>, n: nat, kept: seq<ConnNum>, at: seq<nat>)
    requires n < |history| && Picks(history[..n], kept, at)
    ensures Picks(history, kept, at) && Picks(history, kept + [history[n]], at + [n])
  {
  }

  lemma {:induction false} TrimPicks(history: seq<ConnNum>, members: set<ConnNum>) returns (at: seq<nat>)
    ensures Picks(history, Trim(history, members), at)
    ensures forall p :: 0 <= p < |history| && history[p] in members ==> Covered(history, at, p)
  {
    at := [];
    if history != [] {
      var n := |history| - 1;
      var v, rest := history[n], Trim(history[..n], members);
      var before := TrimPicks(history[..n], members);
      PicksOneMore(history, n, rest, before);
      var more := if v in members && (rest == [] || rest[|rest| - 1] != v) then [n] else [];
      at := before + more;
      assert before + [] == before;
      AllCovered(history, members, before, more);
    }
  }

  lemma AllCovered(history: seq<ConnNum>, members: set<ConnNum>, at: seq<nat>, more: seq<nat>)
    requires history != [] && more in {[], [|history| - 1]}
    requires var n := |history| - 1; forall p :: 0 <= p < n && history[..n][p] in members ==> Covered(history[..n], at, p)
    requires history[|history| - 1] in members ==>
      var all := at + more; all != [] && all[|all| - 1] < |history| && history[all[|all| - 1]] == history[|history| - 1]
    ensures forall p :: 0 <= p < |history| && history[p] in members ==> Covered(history, at + more, p)
  {
    var n := |history| - 1;
    forall p | 0 <= p < |history| && history[p] in members ensures Covered(history, at + more, p) {
      if p < n {
        assert history[..n][p] == history[p];
        CoveredStill(history, n, at, more, p);
      } else {
        CoversLast(history, at + more);
      }
    }
  }

  lemma CoversLast(history: seq<ConnNum>, at: seq<nat>)
    requires history != [] && at != [] && at[|at| - 1] < |history| && history[at[|at| - 1]] == history[|history| - 1]
    ensures Covered(history, at, |history| - 1)
  {
  }

  lemma TrimKeepsOrder(history: seq<ConnNum>, members: set<ConnNum>)
    ensures KeepsOrder(history, members, Trim(history, members))
  {
    var at := TrimPicks(history, members);
  }

  /** What is kept ends with the last entry of a member. */
  lemma {:induction false} TrimEndsWith(history: seq<ConnNum>, members: set<ConnNum>, i: nat)
    requires i < |history| && history[i] in members && forall j :: i < j < |history| ==> history[j] !in members
    ensures var kept := Trim(history, members); kept != [] && kept[|kept| - 1] == history[i]
  {
    var n := |history| - 1;
    if i < n {
      TrimEndsWith(history[..n], members, i);
    }
  }

  lemma TrimSnoc(history: seq<ConnNum>, v: ConnNum, members: set<ConnNum>)
    ensures Trim(history + [v], members) == Extended(Trim(history, members), v, members)
  {
    assert (history + [v])[..|history + [v]| - 1] == history;
  }

  lemma ExtendedTwice(kept: seq<ConnNum>, v: ConnNum, members: set<ConnNum>, fewer: set<ConnNum>)
    requires fewer <= members
    ensures Trim(Extended(kept, v, members), fewer) == Extended(Trim(kept, fewer), v, fewer)
  {
    if v in members && kept != [] && kept[|kept| - 1] == v {
      if v in fewer {
        TrimEndsWith(kept, fewer, |kept| - 1);
      }
    } else {
      TrimSnoc(kept, v, fewer);
    }
  }

  /** Trimming twice is trimming once to what is left in the end. */
  lemma {:induction false} TrimTwice(history: seq<ConnNum>, members: set<ConnNum>, fewer: set<ConnNum>)
    requires fewer <= members
    ensures Trim(Trim(history, members), fewer) == Trim(history, fewer)
  {
    if history != [] {
      var before, v := history[..|history| - 1], history[|history| - 1];
      TrimTwice(before, members, fewer);
      assert history == before + [v];
      TrimSnoc(before, v, members);
      TrimSnoc(before, v, fewer);
      ExtendedTwice(Trim(before, members), v, members, fewer);
    }
  }

  /** A member that does not occur changes nothing. */
  lemma {:induction false} TrimIgnores(history: seq<ConnNum>, members: set<ConnNum>, c: ConnNum)
    requires c !in history
    ensures Trim(history, members + {c}) == Trim(history, members)
  {
    if history != [] {
      TrimIgnores(history[..|history| - 1], members, c);
      assert history[|history| - 1] in history;
    }
  }

  /** The set without `c`. */
  function Remove(ds: DupSet, c: ConnNum): DupSet {
    if c !in ds.members then ds.(last := if ds.last == Some(c) then None else ds.last)
    else
      var members := ds.members - {c};
      var history := Trim(ds.history, members);
      var last := if ds.last == Some(c) then None else ds.last;
      DupSet(members, if last.None? && history != [] then Some(history[|history| - 1]) else last, history)
  }

  function Add(ds: DupSet, c: ConnNum): DupSet {
    DupSet(ds.members + {c}, Some(c), ds.history + [c])
  }

  function Pair(old_: ConnNum, c: ConnNum): DupSet {
    DupSet({old_, c}, Some(c), [old_])
  }

  /** A member that sends is logged, and becomes the active one if the policy says so. */
  function NoteSend(ds: DupSet, policy: DupPolicy, c: ConnNum): DupSet {
    var last := if policy == LastWriterIsActive || ds.last.None? then Some(c) else ds.last;
    var spokeLast := ds.history != [] && ds.history[|ds.history| - 1] == c;
    DupSet(ds.members, last, if spokeLast then ds.history else ds.history + [c])
  }

  lemma PairValid(a: ConnNum, c: ConnNum)
    requires a != c
    ensures Valid(Pair(a, c))
  {
    assert |{a, c}| == 2;
  }

  lemma AddKeepsValid(ds: DupSet, c: ConnNum)
    requires Valid(ds) && c !in ds.members
    ensures Valid(Add(ds, c))
  {
    var h := ds.history;
    assert h != [] ==> h[|h| - 1] in h;
  }

  lemma NoteSendKeepsValid(ds: DupSet, policy: DupPolicy, c: ConnNum)
    requires Valid(ds) && c in ds.members
    ensures Valid(NoteSend(ds, policy, c))
  {
  }

  /** Removing a member keeps the set valid, or leaves the one connection that remains. Either
      way the history is not empty while two members remain, so there is always a new active one. */
  lemma RemoveKeepsValid(ds: DupSet, c: ConnNum)
    requires Valid(ds) && c in ds.members
    ensures var ds' := Remove(ds, c);
      && ds'.members == ds.members - {c} && |ds'.members| == |ds.members| - 1
      && (|ds'.members| >= 2 ==> Valid(ds'))
  {
    var ds' := Remove(ds, c);
    TrimKeeps(ds.history, ds'.members);
    if |ds'.members| >= 2 {
      var x :| x in ds'.members;
      assert |ds'.members - {x}| >= 1;
      var y :| y in ds'.members - {x};
      assert x in ds.history || y in ds.history;
      assert ds'.history != [];
      assert ds'.history[|ds'.history| - 1] in ds'.history;
    }
  }

  /** Entry `i` of the history is the last one of a member other than `c`. */
  predicate SpokeLast(ds: DupSet, c: ConnNum, i: int) {
    && 0 <= i < |ds.history| && ds.history[i] in ds.members && ds.history[i] != c
    && forall j :: i < j < |ds.history| ==> ds.history[j] !in ds.members || ds.history[j] == c
  }

  /** What becomes of a set that a member leaves, told from the set before: the others stay, their
      entries keep their order, and who is active stays so; if the active one leaves, the one of the
      others that spoke last takes over. */
  ghost predicate Left(ds: DupSet, c: ConnNum, ds': DupSet) {
    && ds'.members == ds.members - {c}
    && KeepsOrder(ds.history, ds.members - {c}, ds'.history) && NoEqualNeighbours(ds'.history)
    && (ds.last.Some? && ds.last != Some(c) ==> ds'.last == ds.last)
    && (ds.last == Some(c) ==>
          && (forall i :: SpokeLast(ds, c, i) ==> ds'.last == Some(ds.history[i]))
          && ((forall i :: 0 <= i < |ds.history| ==> ds.history[i] !in ds.members || ds.history[i] == c) ==> ds'.last == None))
  }

  lemma RemoveLeaves(ds: DupSet, c: ConnNum)
    requires c in ds.members
    ensures Left(ds, c, Remove(ds, c))
  {
    var members := ds.members - {c};
    TrimKeeps(ds.history, members);
    TrimKeepsOrder(ds.history, members);
    if ds.last == Some(c) {
      forall i | SpokeLast(ds, c, i) ensures Remove(ds, c).last == Some(ds.history[i]) {
        TrimEndsWith(ds.history, members, i);
      }
      if forall i :: 0 <= i < |ds.history| ==> ds.history[i] !in ds.members || ds.history[i] == c {
        NothingKept(ds.history, members);
      }
    }
  }

  lemma {:induction false} NothingKept(history: seq<ConnNum>, members: set<ConnNum>)
    requires forall i :: 0 <= i < |history| ==> history[i] !in members
    ensures Trim(history, members) == []
  {
    if history != [] {
      NothingKept(history[..|history| - 1], members);
    }
  }

  /** Filters a history in place: the write position never overtakes the read position. */
  method FilterHistory(history: seq<ConnNum>, members: set<ConnNum>) returns (kept: seq<ConnNum>)
    ensures kept == Trim(history, members)
  {
    var buf := history;
    var n := 0;
    for i := 0 to |buf|
      invariant 0 <= n <= i <= |buf| == |history|
      invariant buf[..n] == Trim(history[..i], members)
      invariant forall k :: i <= k < |buf| ==> buf[k] == history[k]
    {
      var v := buf[i];
      assert history[..i + 1] == history[..i] + [v];
      TrimSnoc(history[..i], v, members);
      if v in members && (n == 0 || buf[n - 1] != v) {
        buf := buf[n := v];
        n := n + 1;
      }
    }
    assert history[..|history|] == history;
    kept := buf[..n];
  }

  /** Removes a connection the way the program does. */
  method RemoveClient(ds: DupSet, c: ConnNum) returns (ds': DupSet, removed: bool)
    ensures removed <==> c in ds.members
    ensures ds' == Remove(ds, c)
    ensures removed ==> Left(ds, c, ds')
  {
    var members := ds.members - {c};
    var last := if ds.last == Some(c) then None else ds.last;
    if |members| == |ds.members| {
      assert c !in ds.members;
      assert members == ds.members;
      return ds.(members := members, last := last), false;
    }
    assert c in ds.members;
    var history := FilterHistory(ds.history, members);
    if last.None? && |history| > 0 {
      last := Some(history[|history| - 1]);
    }
    RemoveLeaves(ds, c);
    return DupSet(members, last, history), true;
  }
}
