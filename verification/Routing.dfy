/** The order in which candidate models are tried. */
module Routing {
  import opened Arithmetic
  import opened ProviderErrors

  datatype Model = Model(id: nat, sortOrder: int)

  /** A failed or successful earlier call of a model, as the attempt log keeps it. */
  datatype LoggedAttempt = LoggedAttempt(modelId: nat, failed: bool, startedAt: int, error: ProviderError)

  /** One minute, in nanoseconds. */
  const COOLDOWN: int := 60_000_000_000

  predicate HasId(c: seq<Model>, id: nat) {
    exists i :: 0 <= i < |c| && c[i].id == id
  }

  /** Where `id` occurs first. */
  function First(c: seq<Model>, id: nat): (i: nat)
    requires HasId(c, id)
    ensures i < |c| && c[i].id == id
    ensures forall j :: 0 <= j < i ==> c[j].id != id
  {
    if HasId(c[..|c| - 1], id) then First(c[..|c| - 1], id) else |c| - 1
  }

  // ----- Removing duplicates -----

  function Deduped(c: seq<Model>): seq<Model> {
    if c == [] then []
    else
      var front, last := c[..|c| - 1], c[|c| - 1];
      if last.id == 0 || HasId(front, last.id) then Deduped(front) else Deduped(front) + [last]
  }

  method DedupeModelCandidates(candidates: seq<Model>) returns (deduped: seq<Model>)
    ensures deduped == Deduped(candidates)
  {
    deduped := [];
    var seen: set<nat> := {};
    for i := 0 to |candidates|
      invariant deduped == Deduped(candidates[..i])
      invariant forall id :: id in seen <==> id != 0 && HasId(candidates[..i], id)
    {
      DedupedAppend(candidates[..i], candidates[i]);
      HasIdAppend(candidates[..i], candidates[i]);
      assert candidates[..i + 1] == candidates[..i] + [candidates[i]];
      if candidates[i].id == 0 || candidates[i].id in seen {
        continue;
      }
      seen := seen + {candidates[i].id};
      deduped := deduped + [candidates[i]];
    }
    assert candidates[..|candidates|] == candidates;
  }

  lemma HasIdConcat(p: seq<Model>, d: seq<Model>, id: nat)
    ensures HasId(p + d, id) <==> HasId(p, id) || HasId(d, id)
  {
    if HasId(p, id) {
      var i :| 0 <= i < |p| && p[i].id == id;
      assert (p + d)[i].id == id;
    }
    if HasId(d, id) {
      var i :| 0 <= i < |d| && d[i].id == id;
      assert (p + d)[|p| + i].id == id;
    }
  }

  lemma HasIdOfOne(m: Model, id: nat)
    ensures HasId([m], id) <==> m.id == id
  {
    assert [m][0] == m;
  }

  lemma HasIdAppend(c: seq<Model>, m: Model)
    ensures forall id :: HasId(c + [m], id) <==> HasId(c, id) || m.id == id
  {
    forall id ensures HasId(c + [m], id) <==> HasId(c, id) || m.id == id {
      HasIdConcat(c, [m], id);
      HasIdOfOne(m, id);
    }
  }

  lemma FirstAppend(c: seq<Model>, m: Model, id: nat)
    requires HasId(c, id)
    ensures HasId(c + [m], id) && First(c + [m], id) == First(c, id)
  {
    HasIdAppend(c, m);
    assert (c + [m])[..|c|] == c;
  }

  /** `d` holds every non-zero id of `c` once, as the row where it occurs first, in the order of those rows. */
  ghost predicate FirstOccurrences(c: seq<Model>, d: seq<Model>) {
    && (forall k :: 0 <= k < |d| ==> d[k].id != 0 && HasId(c, d[k].id) && d[k] == c[First(c, d[k].id)])
    && (forall id :: id != 0 && HasId(c, id) ==> HasId(d, id))
    && (forall j, k :: 0 <= j < k < |d| ==> First(c, d[j].id) < First(c, d[k].id))
  }

  lemma DedupedAppend(c: seq<Model>, m: Model)
    ensures Deduped(c + [m]) == if m.id == 0 || HasId(c, m.id) then Deduped(c) else Deduped(c) + [m]
  {
    assert (c + [m])[..|c|] == c;
  }

  lemma {:induction false} DedupedIds(c: seq<Model>, id: nat)
    ensures HasId(Deduped(c), id) <==> id != 0 && HasId(c, id)
  {
    if c != [] {
      var front, last := c[..|c| - 1], c[|c| - 1];
      assert c == front + [last];
      DedupedIds(front, id);
      HasIdConcat(front, [last], id);
      HasIdConcat(Deduped(front), [last], id);
      HasIdOfOne(last, id);
    }
  }

  lemma {:induction false} DedupedRows(c: seq<Model>, k: nat)
    requires k < |Deduped(c)|
    ensures var m := Deduped(c)[k]; m.id != 0 && HasId(c, m.id) && m == c[First(c, m.id)]
  {
    var front, last := c[..|c| - 1], c[|c| - 1];
    assert c == front + [last];
    if k < |Deduped(front)| {
      DedupedRows(front, k);
      FirstAppend(front, last, Deduped(front)[k].id);
    } else {
      assert c[|c| - 1].id == last.id;
    }
  }

  lemma {:induction false} DedupedOrder(c: seq<Model>, j: nat, k: nat)
    requires j < k < |Deduped(c)|
    ensures HasId(c, Deduped(c)[j].id) && HasId(c, Deduped(c)[k].id)
    ensures First(c, Deduped(c)[j].id) < First(c, Deduped(c)[k].id)
  {
    var front, last := c[..|c| - 1], c[|c| - 1];
    assert c == front + [last];
    DedupedRows(c, j);
    DedupedRows(c, k);
    DedupedRows(front, j);
    FirstAppend(front, last, Deduped(front)[j].id);
    if k < |Deduped(front)| {
      DedupedOrder(front, j, k);
      FirstAppend(front, last, Deduped(front)[k].id);
    }
  }

  lemma DedupedKeepsFirstOccurrences(c: seq<Model>)
    ensures FirstOccurrences(c, Deduped(c))
  {
    var d := Deduped(c);
    forall k | 0 <= k < |d| ensures d[k].id != 0 && HasId(c, d[k].id) && d[k] == c[First(c, d[k].id)] {
      DedupedRows(c, k);
    }
    forall id | id != 0 && HasId(c, id) ensures HasId(d, id) {
      DedupedIds(c, id);
    }
    forall j, k | 0 <= j < k < |d| ensures First(c, d[j].id) < First(c, d[k].id) {
      DedupedOrder(c, j, k);
    }
  }

  /** Removing duplicates among the defaults first makes no difference. */
  lemma {:induction false} DedupingTwiceIsDedupingOnce(p: seq<Model>, d: seq<Model>)
    ensures Deduped(p + Deduped(d)) == Deduped(p + d)
  {
    if d != [] {
      var front, last := d[..|d| - 1], d[|d| - 1];
      DedupingTwiceIsDedupingOnce(p, front);
      HasIdConcat(p, front, last.id);
      HasIdConcat(p, Deduped(front), last.id);
      DedupedIds(front, last.id);
      assert p + d == (p + front) + [last];
      DedupedAppend(p + front, last);
      DedupedAppend(p + Deduped(front), last);
      assert Deduped(front) + [last] == Deduped(d) ==> (p + Deduped(front)) + [last] == p + Deduped(d);
    }
  }

  /** The default model, the fallback, the one matching the active runtime, then all that are online. */
  method DefaultImageModelCandidates(chosen: seq<Model>, online: seq<Model>) returns (candidates: seq<Model>)
    ensures candidates == Deduped(chosen + online)
  {
    candidates := DedupeModelCandidates(chosen + online);
  }

  method CompleteImageModelCandidates(primary: seq<Model>, chosen: seq<Model>, online: seq<Model>)
    returns (candidates: seq<Model>)
    ensures candidates == Deduped(primary + (chosen + online))
  {
    var defaults := DefaultImageModelCandidates(chosen, online);
    candidates := DedupeModelCandidates(primary + defaults);
    DedupingTwiceIsDedupingOnce(primary, chosen + online);
  }

  // ----- Models that failed a moment ago go last -----

  predicate Cools(a: LoggedAttempt, now: int) {
    a.failed && a.startedAt >= now - COOLDOWN && TriggersModelFailover(a.error)
  }

  function CoolingIds(candidates: seq<Model>, log: seq<LoggedAttempt>, now: int): set<nat> {
    set a | a in log && Cools(a, now) && a.modelId != 0 && HasId(candidates, a.modelId) :: a.modelId
  }

  /** A model cools exactly when it is a candidate and failed within the last minute in a way that moves on. */
  lemma CoolsIff(candidates: seq<Model>, log: seq<LoggedAttempt>, now: int, id: nat)
    ensures id in CoolingIds(candidates, log, now) <==>
            && id != 0 && HasId(candidates, id)
            && exists a :: a in log && a.modelId == id && a.failed && now - a.startedAt <= 60 * 1_000_000_000
                           && TriggersModelFailover(a.error)
  {
  }

  /** The candidates that are cooling, or those that are not, in their order. */
  function Where(c: seq<Model>, cooling: set<nat>, wanted: bool): seq<Model> {
    if c == [] then []
    else
      var front, last := c[..|c| - 1], c[|c| - 1];
      Where(front, cooling, wanted) + if (last.id in cooling) == wanted then [last] else []
  }

  function Prioritized(c: seq<Model>, cooling: set<nat>): seq<Model> {
    Where(c, cooling, false) + Where(c, cooling, true)
  }

  method PrioritizeModelFailoverCooldown(candidates: seq<Model>, log: seq<LoggedAttempt>, now: int)
    returns (ordered: seq<Model>)
    ensures ordered == Prioritized(candidates, CoolingIds(candidates, log, now))
  {
    var ids: set<nat> := {};
    for i := 0 to |candidates|
      invariant forall id :: id in ids <==> id != 0 && HasId(candidates[..i], id)
    {
      HasIdAppend(candidates[..i], candidates[i]);
      assert candidates[..i + 1] == candidates[..i] + [candidates[i]];
      if candidates[i].id > 0 {
        ids := ids + {candidates[i].id};
      }
    }
    assert candidates[..|candidates|] == candidates;
    var cooling: set<nat> := {};
    for i := 0 to |log|
      invariant cooling == CoolingIds(candidates, log[..i], now)
    {
      assert log[..i + 1] == log[..i] + [log[i]];
      if log[i].modelId in ids && Cools(log[i], now) {
        cooling := cooling + {log[i].modelId};
      }
    }
    assert log[..|log|] == log;
    if cooling == {} {
      NothingCooling(candidates);
      return candidates;
    }
    ordered := [];
    var delayed := [];
    for i := 0 to |candidates|
      invariant ordered == Where(candidates[..i], cooling, false)
      invariant delayed == Where(candidates[..i], cooling, true)
    {
      assert candidates[..i + 1][..i] == candidates[..i];
      if candidates[i].id in cooling {
        delayed := delayed + [candidates[i]];
        continue;
      }
      ordered := ordered + [candidates[i]];
    }
    assert candidates[..|candidates|] == candidates;
    ordered := ordered + delayed;
  }

  lemma {:induction false} NothingCooling(c: seq<Model>)
    ensures Where(c, {}, false) == c && Where(c, {}, true) == []
  {
    if c != [] {
      NothingCooling(c[..|c| - 1]);
      assert c == c[..|c| - 1] + [c[|c| - 1]];
    }
  }

  /** `w[j]` and `w[k]` come from two places of `c` in the same order. */
  ghost predicate InOrderOf(c: seq<Model>, w: seq<Model>) {
    forall j, k :: 0 <= j < k < |w| ==> ComesBefore(c, w[j], w[k])
  }

  ghost predicate ComesBefore(c: seq<Model>, x: Model, y: Model) {
    exists a, b :: 0 <= a < b < |c| && c[a] == x && c[b] == y
  }

  lemma {:induction false} WhereSelects(c: seq<Model>, cooling: set<nat>, wanted: bool)
    ensures forall m :: m in Where(c, cooling, wanted) <==> m in c && (m.id in cooling) == wanted
    ensures InOrderOf(c, Where(c, cooling, wanted))
  {
    if c != [] {
      var front, last := c[..|c| - 1], c[|c| - 1];
      WhereSelects(front, cooling, wanted);
      assert c == front + [last];
      var w, v := Where(c, cooling, wanted), Where(front, cooling, wanted);
      forall j, k | 0 <= j < k < |w| ensures ComesBefore(c, w[j], w[k]) {
        if k < |v| {
          assert ComesBefore(front, v[j], v[k]);
          var a, b :| 0 <= a < b < |front| && front[a] == v[j] && front[b] == v[k];
          assert c[a] == w[j] && c[b] == w[k];
        } else {
          assert w[j] in front;
          var a :| 0 <= a < |front| && front[a] == w[j];
          assert c[a] == w[j] && c[|front|] == w[k];
        }
      }
    }
  }

  lemma SameClassOrder(d: seq<Model>, now: seq<Model>, later: seq<Model>, cooling: set<nat>, j: nat, k: nat)
    requires InOrderOf(d, now) && InOrderOf(d, later) && j < k < |now + later|
    requires forall m :: m in now ==> m.id !in cooling
    requires forall m :: m in later ==> m.id in cooling
    ensures var routed := now + later;
            && (routed[j].id in cooling ==> routed[k].id in cooling)
            && ((routed[j].id in cooling) == (routed[k].id in cooling) ==> ComesBefore(d, routed[j], routed[k]))
  {
    var routed := now + later;
    if k < |now| {
      assert routed[j] == now[j] && routed[k] == now[k];
    } else if j >= |now| {
      assert routed[j] == later[j - |now|] && routed[k] == later[k - |now|];
    } else {
      assert routed[j] == now[j] && routed[k] == later[k - |now|];
    }
  }

  lemma PrioritizedContents(d: seq<Model>, cooling: set<nat>)
    ensures forall m :: m in Prioritized(d, cooling) <==> m in d
  {
    WhereSelects(d, cooling, false);
    WhereSelects(d, cooling, true);
    forall m ensures m in Prioritized(d, cooling) <==> m in d {
      assert m in Prioritized(d, cooling) <==> m in Where(d, cooling, false) || m in Where(d, cooling, true);
    }
  }

  lemma PrioritizedOrder(d: seq<Model>, cooling: set<nat>, j: nat, k: nat)
    requires j < k < |Prioritized(d, cooling)|
    ensures var routed := Prioritized(d, cooling);
            && (routed[j].id in cooling ==> routed[k].id in cooling)
            && ((routed[j].id in cooling) == (routed[k].id in cooling) ==> ComesBefore(d, routed[j], routed[k]))
  {
    WhereSelects(d, cooling, false);
    WhereSelects(d, cooling, true);
    SameClassOrder(d, Where(d, cooling, false), Where(d, cooling, true), cooling, j, k);
  }

  lemma ComesBeforeMeansFirst(c: seq<Model>, d: seq<Model>, x: Model, y: Model)
    requires FirstOccurrences(c, d) && ComesBefore(d, x, y)
    ensures HasId(c, x.id) && HasId(c, y.id) && First(c, x.id) < First(c, y.id)
  {
    var a, b :| 0 <= a < b < |d| && d[a] == x && d[b] == y;
  }

  lemma DedupedContents(c: seq<Model>)
    ensures forall m :: m in Deduped(c) <==> m.id != 0 && HasId(c, m.id) && m == c[First(c, m.id)]
  {
    var d := Deduped(c);
    DedupedKeepsFirstOccurrences(c);
    forall m ensures m in d <==> m.id != 0 && HasId(c, m.id) && m == c[First(c, m.id)] {
      if m.id != 0 && HasId(c, m.id) && m == c[First(c, m.id)] {
        var i :| 0 <= i < |d| && d[i].id == m.id;
        assert d[i] == m;
      }
    }
  }

  lemma RoutedPair(input: seq<Model>, cooling: set<nat>, j: nat, k: nat)
    requires j < k < |Prioritized(Deduped(input), cooling)|
    ensures var routed := Prioritized(Deduped(input), cooling);
            && routed[j].id != routed[k].id
            && (routed[j].id in cooling ==> routed[k].id in cooling)
            && ((routed[j].id in cooling) == (routed[k].id in cooling) ==>
                  HasId(input, routed[j].id) && HasId(input, routed[k].id)
                  && First(input, routed[j].id) < First(input, routed[k].id))
  {
    var d, routed := Deduped(input), Prioritized(Deduped(input), cooling);
    PrioritizedOrder(d, cooling, j, k);
    if (routed[j].id in cooling) == (routed[k].id in cooling) {
      DedupedKeepsFirstOccurrences(input);
      ComesBeforeMeansFirst(input, d, routed[j], routed[k]);
    }
  }

  /**
   The list handed to the failover loop: no id twice and none zero, exactly the non-zero ids of the
   input, each as its first row; every model that is not cooling comes before every one that is; and
   inside each of the two classes models keep the order of their first occurrences.
   */
  lemma RoutedListIsRight(input: seq<Model>, cooling: set<nat>)
    ensures var routed := Prioritized(Deduped(input), cooling);
            && (forall m :: m in routed <==> m.id != 0 && HasId(input, m.id) && m == input[First(input, m.id)])
            && (forall j, k :: 0 <= j < k < |routed| ==>
                  && routed[j].id != routed[k].id
                  && (routed[j].id in cooling ==> routed[k].id in cooling)
                  && ((routed[j].id in cooling) == (routed[k].id in cooling) ==>
                        HasId(input, routed[j].id) && HasId(input, routed[k].id)
                        && First(input, routed[j].id) < First(input, routed[k].id)))
  {
    var d, routed := Deduped(input), Prioritized(Deduped(input), cooling);
    DedupedContents(input);
    PrioritizedContents(d, cooling);
    forall j, k | 0 <= j < k < |routed|
      ensures routed[j].id != routed[k].id
              && (routed[j].id in cooling ==> routed[k].id in cooling)
              && ((routed[j].id in cooling) == (routed[k].id in cooling) ==>
                    HasId(input, routed[j].id) && HasId(input, routed[k].id)
                    && First(input, routed[j].id) < First(input, routed[k].id))
    {
      RoutedPair(input, cooling, j, k);
    }
  }

  // ----- Least called first -----

  /** How often each model was used so far: one occurrence of its id for each generation record. */
  type History = multiset<nat>

  predicate Before(h: History, a: Model, b: Model) {
    if h[a.id] != h[b.id] then h[a.id] < h[b.id]
    else if a.sortOrder != b.sortOrder then a.sortOrder < b.sortOrder
    else a.id < b.id
  }

  /** The stable sort of the library: each element goes before those that are not before it. */
  function Insert(h: History, m: Model, s: seq<Model>): seq<Model> {
    if s == [] || !Before(h, s[0], m) then [m] + s else [s[0]] + Insert(h, m, s[1..])
  }

  function LeastCalledFirst(h: History, c: seq<Model>): seq<Model> {
    if c == [] then [] else Insert(h, c[0], LeastCalledFirst(h, c[1..]))
  }

  ghost predicate Sorted(h: History, s: seq<Model>) {
    forall i, j :: 0 <= i < j < |s| ==> !Before(h, s[j], s[i])
  }

  lemma {:induction false} InsertContents(h: History, m: Model, s: seq<Model>)
    ensures multiset(Insert(h, m, s)) == multiset{m} + multiset(s)
  {
    if s != [] {
      InsertContents(h, m, s[1..]);
      assert s == [s[0]] + s[1..];
    }
  }

  lemma {:induction false} InsertBounded(h: History, m: Model, s: seq<Model>, x: Model)
    requires !Before(h, m, x) && forall j :: 0 <= j < |s| ==> !Before(h, s[j], x)
    ensures forall j :: 0 <= j < |Insert(h, m, s)| ==> !Before(h, Insert(h, m, s)[j], x)
  {
    if s != [] && Before(h, s[0], m) {
      InsertBounded(h, m, s[1..], x);
    }
  }

  lemma {:induction false} InsertSorts(h: History, m: Model, s: seq<Model>)
    requires Sorted(h, s)
    ensures Sorted(h, Insert(h, m, s))
  {
    if s != [] {
      if Before(h, s[0], m) {
        InsertSorts(h, m, s[1..]);
        InsertBounded(h, m, s[1..], s[0]);
      } else {
        forall j | 0 <= j < |s| ensures !Before(h, s[j], m) {
          assert j > 0 ==> !Before(h, s[j], s[0]);
        }
      }
    }
  }

  /** The routed list is a rearrangement of the online models, sorted by calls, then sort order, then id. */
  lemma {:induction false} LeastCalledFirstSorts(h: History, c: seq<Model>)
    ensures Sorted(h, LeastCalledFirst(h, c)) && multiset(LeastCalledFirst(h, c)) == multiset(c)
  {
    if c != [] {
      LeastCalledFirstSorts(h, c[1..]);
      InsertSorts(h, c[0], LeastCalledFirst(h, c[1..]));
      InsertContents(h, c[0], LeastCalledFirst(h, c[1..]));
      assert c == [c[0]] + c[1..];
    }
  }

  ghost predicate DistinctIds(c: seq<Model>) {
    forall i, j :: 0 <= i < j < |c| ==> c[i].id != c[j].id
  }

  /** The model that a round robin tries first. */
  function Pick(h: History, c: seq<Model>): (m: Model)
    requires c != []
    ensures m in c
  {
    LeastCalledFirstSorts(h, c);
    assert multiset(LeastCalledFirst(h, c)) != multiset{} by { assert c[0] in multiset(c); }
    assert LeastCalledFirst(h, c)[0] in multiset(c);
    LeastCalledFirst(h, c)[0]
  }

  /** It comes before every other model, whatever the order in which the models were listed. */
  lemma PickIsLeast(h: History, c: seq<Model>, m: Model)
    requires c != [] && DistinctIds(c) && m in c
    ensures m != Pick(h, c) ==> Before(h, Pick(h, c), m)
    ensures h[Pick(h, c).id] <= h[m.id]
  {
    LeastCalledFirstSorts(h, c);
    var s := LeastCalledFirst(h, c);
    assert m in multiset(s) && m in s;
    var i :| 0 <= i < |s| && s[i] == m;
    if i > 0 {
      assert !Before(h, s[i], s[0]);
    }
  }

  /** The calls of any two models differ by at most `spread`. */
  ghost predicate WithinSpread(h: History, c: seq<Model>, spread: nat) {
    forall a, b :: a in c && b in c ==> h[a.id] <= h[b.id] + spread
  }

  /** Recording a pick never widens the spread beyond one. */
  lemma PickKeepsSpread(h: History, c: seq<Model>, spread: nat)
    requires c != [] && DistinctIds(c) && WithinSpread(h, c, spread)
    ensures WithinSpread(h + multiset{Pick(h, c).id}, c, if spread == 0 then 1 else spread)
  {
    var p := Pick(h, c);
    var u := h + multiset{p.id};
    forall a, b | a in c && b in c ensures u[a.id] <= u[b.id] + if spread == 0 then 1 else spread {
      PickIsLeast(h, c, b);
    }
  }

  function AfterPicks(h: History, c: seq<Model>, n: nat): History
    requires c != []
  {
    if n == 0 then h else AfterPicks(h, c, n - 1) + multiset{Pick(AfterPicks(h, c, n - 1), c).id}
  }

  lemma {:induction false} PicksKeepSpread(h: History, c: seq<Model>, spread: nat, n: nat)
    requires c != [] && DistinctIds(c) && WithinSpread(h, c, spread)
    ensures WithinSpread(AfterPicks(h, c, n), c, if spread == 0 then 1 else spread)
  {
    if n > 0 {
      PicksKeepSpread(h, c, spread, n - 1);
      PickKeepsSpread(AfterPicks(h, c, n - 1), c, if spread == 0 then 1 else spread);
    }
  }

  // ----- From equal counts every model has its turn -----

  /** The models as the database lists them: by sort order, then by id. */
  ghost predicate InListOrder(c: seq<Model>) {
    forall i, j :: 0 <= i < j < |c| ==>
      c[i].id != c[j].id && (c[i].sortOrder < c[j].sortOrder || (c[i].sortOrder == c[j].sortOrder && c[i].id < c[j].id))
  }

  /** The first `turn` models have been used once more than `level` times, the others `level` times. */
  ghost predicate InTurn(h: History, c: seq<Model>, level: nat, turn: nat) {
    turn < |c| && forall i :: 0 <= i < |c| ==> h[c[i].id] == level + if i < turn then 1 else 0
  }

  lemma PickInTurn(h: History, c: seq<Model>, level: nat, turn: nat)
    requires InListOrder(c) && InTurn(h, c, level, turn)
    ensures Pick(h, c) == c[turn]
    ensures var u := h + multiset{Pick(h, c).id};
            if turn + 1 == |c| then InTurn(u, c, level + 1, 0) else InTurn(u, c, level, turn + 1)
  {
    var p := Pick(h, c);
    PickIsLeast(h, c, c[turn]);
    var i :| 0 <= i < |c| && c[i] == p;
    assert i == turn;
  }

  /** How many full rounds `n` picks make, and how many picks the next round has seen. */
  function Turns(n: nat, size: nat): (nat, nat) {
    if n == 0 then (0, 0)
    else
      var (rounds, turn) := Turns(n - 1, size);
      if turn + 1 == size then (rounds + 1, 0) else (rounds, turn + 1)
  }

  lemma TurnsDivide(n: nat, size: nat)
    requires size > 0
    ensures Turns(n, size) == (n / size, n % size)
  {
    var (rounds, turn) := Turns(n, size);
    assert n == rounds * size + turn && turn < size by { TurnsCount(n, size); }
    DivideExactly(n, size, rounds, turn);
  }

  lemma {:induction false} TurnsCount(n: nat, size: nat)
    requires size > 0
    ensures n == Turns(n, size).0 * size + Turns(n, size).1 && Turns(n, size).1 < size
  {
    if n > 0 {
      TurnsCount(n - 1, size);
      MultiplyMonotone(size, Turns(n - 1, size).0, Turns(n - 1, size).0);
    }
  }

  lemma {:induction false} PicksInTurn(h: History, c: seq<Model>, base: nat, n: nat)
    requires c != [] && InListOrder(c) && forall m :: m in c ==> h[m.id] == base
    ensures var (rounds, turn) := Turns(n, |c|); InTurn(AfterPicks(h, c, n), c, base + rounds, turn)
  {
    if n == 0 {
      assert forall i :: 0 <= i < |c| ==> c[i] in c;
    } else {
      PicksInTurn(h, c, base, n - 1);
      PickInTurn(AfterPicks(h, c, n - 1), c, base + Turns(n - 1, |c|).0, Turns(n - 1, |c|).1);
    }
  }

  /** A real round robin: when all models have been used equally often, pick `n` is model `n % |c|` of the list. */
  lemma RoundRobin(h: History, c: seq<Model>, base: nat, n: nat)
    requires c != [] && InListOrder(c) && forall m :: m in c ==> h[m.id] == base
    ensures Pick(AfterPicks(h, c, n), c) == c[n % |c|]
  {
    TurnsDivide(n, |c|);
    PicksInTurn(h, c, base, n);
    PickInTurn(AfterPicks(h, c, n), c, base + n / |c|, n % |c|);
  }

  /** So any `|c|` picks in a row choose each model exactly once. */
  lemma EveryRoundPicksEachOnce(h: History, c: seq<Model>, base: nat, n: nat, i: nat)
    requires i < |c| && InListOrder(c) && forall m :: m in c ==> h[m.id] == base
    ensures AfterPicks(h, c, n + |c|)[c[i].id] == AfterPicks(h, c, n)[c[i].id] + 1
  {
    PicksInTurn(h, c, base, n);
    PicksInTurn(h, c, base, n + |c|);
    TurnsDivide(n, |c|);
    TurnsDivide(n + |c|, |c|);
    NextRound(n, |c|);
  }
}
