/**
 The routing table of the crossfading convolver: entries ordered by output, then input, with at
 most one entry for every pair of them.
 */
module RoutingTables {

  datatype Routing = Routing(input: nat, output: nat, filter: nat, gain: real)

  /** What the entries and their number are checked against. */
  datatype Limits = Limits(inputs: nat, outputs: nat, filters: nat, points: nat)

  predicate SameKey(a: Routing, b: Routing) { a.input == b.input && a.output == b.output }

  predicate Before(a: Routing, b: Routing) {
    if a.output == b.output then a.input < b.input else a.output < b.output
  }

  ghost predicate Sorted(rs: seq<Routing>) {
    forall i, j :: 0 <= i < j < |rs| ==> Before(rs[i], rs[j])
  }

  ghost predicate HasKey(rs: seq<Routing>, r: Routing) {
    exists i :: 0 <= i < |rs| && SameKey(rs[i], r)
  }

  /** Where r belongs in the table. */
  function Place(rs: seq<Routing>, r: Routing): (k: nat)
    ensures k <= |rs|
    ensures forall i :: 0 <= i < k ==> Before(rs[i], r)
    ensures k < |rs| ==> !Before(rs[k], r)
  {
    if rs != [] && Before(rs[0], r) then 1 + Place(rs[1..], r) else 0
  }

  /** The table after r was set: an entry with its key is replaced. */
  function Put(rs: seq<Routing>, r: Routing): seq<Routing> {
    var k := Place(rs, r);
    if k < |rs| && SameKey(rs[k], r) then rs[k := r] else rs[..k] + [r] + rs[k..]
  }

  function PutAll(rs: seq<Routing>, list: seq<Routing>): seq<Routing> {
    if list == [] then rs else Put(PutAll(rs, list[..|list| - 1]), list[|list| - 1])
  }

  /** r is the only entry with its key, and the entries with other keys are the old ones. */
  ghost predicate Replaced(before: seq<Routing>, after: seq<Routing>, r: Routing) {
    && r in after
    && (forall e :: e in after ==> e == r || (e in before && !SameKey(e, r)))
    && (forall e :: e in before && !SameKey(e, r) ==> e in after)
  }

  lemma PlaceOfKey(rs: seq<Routing>, r: Routing)
    requires Sorted(rs)
    ensures var k := Place(rs, r);
      && (forall i :: k < i < |rs| ==> Before(r, rs[i]))
      && (k < |rs| ==> SameKey(rs[k], r) || Before(r, rs[k]))
      && (HasKey(rs, r) <==> k < |rs| && SameKey(rs[k], r))
  {
    var k := Place(rs, r);
    forall i | k < i < |rs| ensures Before(r, rs[i]) {
      assert Before(rs[k], rs[i]);
    }
  }

  lemma BeforeNotSame(a: Routing, b: Routing)
    requires Before(a, b)
    ensures !SameKey(a, b) && !SameKey(b, a)
  {}

  // The table is a part before r, possibly an entry with r's key, and a part after r.
  lemma Parts(rs: seq<Routing>, r: Routing) returns (lower: seq<Routing>, upper: seq<Routing>)
    requires Sorted(rs)
    ensures lower == rs[..Place(rs, r)]
    ensures forall e :: e in lower ==> Before(e, r)
    ensures forall e :: e in upper ==> Before(r, e)
    ensures HasKey(rs, r) ==>
      |rs| == |lower| + 1 + |upper| && SameKey(rs[|lower|], r) && rs == lower + [rs[|lower|]] + upper
    ensures !HasKey(rs, r) ==> rs == lower + upper
    ensures Put(rs, r) == lower + [r] + upper
  {
    hide Before, SameKey, Sorted, HasKey;
    PlaceOfKey(rs, r);
    var k := Place(rs, r);
    lower := rs[..k];
    upper := if HasKey(rs, r) then rs[k + 1..] else rs[k..];
    if HasKey(rs, r) { assert rs == lower + [rs[k]] + upper; }
  }

  /** The order: by output, then by input, so no pair of an input and an output occurs twice. */
  lemma SortedMeans(rs: seq<Routing>, i: nat, j: nat)
    requires Sorted(rs) && i < j < |rs|
    ensures rs[i].output < rs[j].output || (rs[i].output == rs[j].output && rs[i].input < rs[j].input)
  {}

  lemma HasKeyMeans(rs: seq<Routing>, r: Routing)
    ensures HasKey(rs, r) <==> exists i :: 0 <= i < |rs| && rs[i].input == r.input && rs[i].output == r.output
  {}

  /** Setting an entry keeps the table ordered and free of duplicates, and adds to its length only
      if there was none for the same input and output. */
  lemma PutKeepsOrder(rs: seq<Routing>, r: Routing)
    requires Sorted(rs)
    ensures Sorted(Put(rs, r))
    ensures |Put(rs, r)| == if HasKey(rs, r) then |rs| else |rs| + 1
    ensures HasKey(rs, r) <==> exists i :: 0 <= i < |rs| && rs[i].input == r.input && rs[i].output == r.output
  {
    HasKeyMeans(rs, r);
    PutOrdered(rs, r);
  }

  lemma PutOrdered(rs: seq<Routing>, r: Routing)
    requires Sorted(rs)
    ensures Sorted(Put(rs, r))
    ensures |Put(rs, r)| == if HasKey(rs, r) then |rs| else |rs| + 1
  {
    hide Before, HasKey, Put, Place;
    var lower, upper := Parts(rs, r);
    var after, k := lower + [r] + upper, |lower|;
    var d := if HasKey(rs, r) then 0 else 1;
    forall i, j | 0 <= i < j < |after| ensures Before(after[i], after[j]) {
      if j == k {
        assert after[i] in lower;
      } else if i == k {
        assert after[j] in upper;
      } else {
        assert after[i] == rs[if i < k then i else i - d] && after[j] == rs[if j < k then j else j - d];
      }
    }
  }

  /** Setting an entry replaces the one for the same input and output and touches no other. */
  lemma PutReplaces(rs: seq<Routing>, r: Routing)
    requires Sorted(rs)
    ensures Replaced(rs, Put(rs, r), r)
    ensures forall e :: e in Put(rs, r) <==>
      e == r || (e in rs && (e.input != r.input || e.output != r.output))
  {
    PutReplacesKey(rs, r);
    ReplacedMeans(rs, Put(rs, r), r);
  }

  lemma ReplacedMeans(before: seq<Routing>, after: seq<Routing>, r: Routing)
    requires Replaced(before, after, r)
    ensures forall e :: e in after <==> e == r || (e in before && (e.input != r.input || e.output != r.output))
  {}

  lemma PutReplacesKey(rs: seq<Routing>, r: Routing)
    requires Sorted(rs)
    ensures Replaced(rs, Put(rs, r), r)
  {
    hide Before, HasKey, Put, Place, Sorted;
    var lower, upper := Parts(rs, r);
    forall e | e in lower || e in upper ensures e in rs && !SameKey(e, r) {
      if e in lower { BeforeNotSame(e, r); } else { BeforeNotSame(r, e); }
    }
    assert Put(rs, r)[|lower|] == r;
  }

  /** Erasing an entry with r's key, if there is one, and inserting r at its place is Put. */
  lemma EraseInsert(rs: seq<Routing>, r: Routing, table: seq<Routing>)
    requires Sorted(rs)
    requires var k := Place(rs, r); table == if HasKey(rs, r) && k < |rs| then rs[..k] + rs[k + 1..] else rs
    ensures var k := Place(rs, r); k <= |table| && table[..k] + [r] + table[k..] == Put(rs, r)
    ensures |table| == if HasKey(rs, r) then |rs| - 1 else |rs|
    ensures HasKey(rs, r) <==> Place(rs, r) < |rs| && SameKey(rs[Place(rs, r)], r)
  {
    hide Before, SameKey, Sorted, HasKey, Put, Place;
    PlaceOfKey(rs, r);
    var lower, upper := Parts(rs, r);
    PartsAround(rs, table, lower, upper, Place(rs, r), HasKey(rs, r));
  }

  lemma PartsAround(rs: seq<Routing>, table: seq<Routing>, lower: seq<Routing>, upper: seq<Routing>, k: nat,
                    found: bool)
    requires k <= |rs| && lower == rs[..k] && (found ==> k < |rs|)
    requires rs == if found then lower + [rs[k]] + upper else lower + upper
    requires table == if found then rs[..k] + rs[k + 1..] else rs
    ensures k <= |table| && table[..k] == lower && table[k..] == upper
    ensures |table| == if found then |rs| - 1 else |rs|
  {
    assert table == lower + upper;
  }

  /** A table made from a list: an entry is in it if and only if it is in the list and no later one
      there has the same input and output. */
  lemma {:induction false} PutAllHolds(list: seq<Routing>)
    ensures Sorted(PutAll([], list))
    ensures forall e :: e in PutAll([], list) <==>
      (exists i :: 0 <= i < |list| && list[i] == e &&
         (forall j :: i < j < |list| ==> list[j].input != e.input || list[j].output != e.output))
  {
    hide Sorted, Put;
    if list == [] {
      EmptyTable();
    } else {
      var init, r := list[..|list| - 1], list[|list| - 1];
      PutAllHolds(init);
      PutOrdered(PutAll([], init), r);
      PutReplaces(PutAll([], init), r);
      forall e
        ensures LastInList(list, e) <==> e == r || (LastInList(init, e) && (e.input != r.input || e.output != r.output))
      {
        LastOfLonger(init, r, list, e);
      }
      forall e ensures e in PutAll([], list) <==> LastInList(list, e) {}
    }
  }

  // e is in the list, with no later entry for its input and output.
  ghost predicate LastInList(list: seq<Routing>, e: Routing) {
    exists i :: 0 <= i < |list| && list[i] == e &&
      (forall j :: i < j < |list| ==> list[j].input != e.input || list[j].output != e.output)
  }

  lemma LastOfLonger(init: seq<Routing>, r: Routing, list: seq<Routing>, e: Routing)
    requires list == init + [r]
    ensures LastInList(list, e) <==> e == r || (LastInList(init, e) && (e.input != r.input || e.output != r.output))
  {
    if LastInList(list, e) && e != r { LastOfShorter(init, r, list, e); }
    if e == r {
      assert list[|init|] == e;
    } else if LastInList(init, e) && (e.input != r.input || e.output != r.output) {
      var i :| 0 <= i < |init| && init[i] == e &&
        forall j :: i < j < |init| ==> init[j].input != e.input || init[j].output != e.output;
      assert list[i] == e;
    }
  }

  lemma LastOfShorter(init: seq<Routing>, r: Routing, list: seq<Routing>, e: Routing)
    requires list == init + [r] && LastInList(list, e) && e != r
    ensures LastInList(init, e) && (e.input != r.input || e.output != r.output)
  {
    var i :| 0 <= i < |list| && list[i] == e &&
      forall j :: i < j < |list| ==> list[j].input != e.input || list[j].output != e.output;
    assert init[i] == e && list[|init|] == r;
    forall j | i < j < |init| ensures init[j].input != e.input || init[j].output != e.output {
      assert list[j] == init[j];
    }
  }

  /** No two entries of the list have the same input and output. */
  ghost predicate DistinctPairs(list: seq<Routing>) {
    forall i, j :: 0 <= i < j < |list| ==> list[i].input != list[j].input || list[i].output != list[j].output
  }

  /** From distinct pairs every entry comes into the table. */
  lemma {:induction false} PutAllDistinct(list: seq<Routing>)
    requires DistinctPairs(list)
    ensures |PutAll([], list)| == |list| && forall e :: e in PutAll([], list) <==> e in list
  {
    hide Sorted, Put;
    if list != [] {
      var init, r := list[..|list| - 1], list[|list| - 1];
      PutAllHolds(init);
      PutAllDistinct(init);
      PutKeepsOrder(PutAll([], init), r);
      PutReplaces(PutAll([], init), r);
      NewPair(init, r, list, PutAll([], init));
      forall e ensures e in list <==> e in init || e == r {
        assert list == init + [r];
      }
    }
  }

  lemma NewPair(init: seq<Routing>, r: Routing, list: seq<Routing>, table: seq<Routing>)
    requires list == init + [r] && DistinctPairs(list) && forall e :: e in table <==> e in init
    ensures !HasKey(table, r)
    ensures forall e :: e in table ==> e.input != r.input || e.output != r.output
  {
    forall e | e in init ensures e.input != r.input || e.output != r.output {
      var i :| 0 <= i < |init| && init[i] == e;
      assert list[i] == e && list[|init|] == r;
    }
    forall i | 0 <= i < |table| ensures !SameKey(table[i], r) {
      assert table[i] in table;
    }
  }

  // ---- the checks ----

  predicate InRange(r: Routing, lim: Limits) {
    r.input < lim.inputs && r.output < lim.outputs && r.filter < lim.filters
  }

  ghost predicate RoutingsInRange(rs: seq<Routing>, lim: Limits) {
    forall i :: 0 <= i < |rs| ==> InRange(rs[i], lim)
  }

  /** All entries name one of the first so many filters. */
  ghost predicate FiltersBelow(rs: seq<Routing>, filters: nat) {
    forall i :: 0 <= i < |rs| ==> rs[i].filter < filters
  }

  /** Entry k is the first one of a list that names a missing input, output or filter. */
  ghost predicate FirstOutOfRange(list: seq<Routing>, k: nat, lim: Limits) {
    k < |list| && !InRange(list[k], lim) && RoutingsInRange(list[..k], lim)
  }

  lemma EmptyTable()
    ensures Sorted([])
    ensures forall lim :: RoutingsInRange([], lim)
  {}

  lemma RangeAfter(before: seq<Routing>, after: seq<Routing>, r: Routing, lim: Limits, filters: nat)
    requires Replaced(before, after, r) && RoutingsInRange(before, lim) && InRange(r, lim)
    ensures RoutingsInRange(after, lim)
    ensures FiltersBelow(before, filters) ==> (FiltersBelow(after, filters) <==> r.filter < filters)
  {
    forall i | 0 <= i < |after| ensures after[i] == r || after[i] in before {
      assert after[i] in after;
    }
  }

  // A table made of entries for usable filters is usable.
  lemma {:induction false} PutAllFilters(list: seq<Routing>, filters: nat)
    requires FiltersBelow(list, filters)
    ensures FiltersBelow(PutAll([], list), filters)
  {
    if list != [] { PutAllFilters(list[..|list| - 1], filters); }
  }

  // ---- what the operations leave ----

  /** An entry is taken if it is in range and, once the table is full, replaces another one. */
  ghost predicate Accepts(rs: seq<Routing>, r: Routing, lim: Limits) {
    InRange(r, lim) && (HasKey(rs, r) || |rs| < lim.points)
  }

  ghost function SetEntry(rs: seq<Routing>, r: Routing, lim: Limits): seq<Routing> {
    if Accepts(rs, r, lim) then Put(rs, r) else rs
  }

  /** The number of entries before the first one out of range. */
  function GoodPrefix(list: seq<Routing>, lim: Limits): (k: nat)
    ensures k <= |list| && RoutingsInRange(list[..k], lim)
    ensures k < |list| ==> FirstOutOfRange(list, k, lim)
  {
    if list == [] || !InRange(list[0], lim) then 0 else 1 + GoodPrefix(list[1..], lim)
  }

  /** The table initialised from a list. */
  function Installed(list: seq<Routing>, lim: Limits): seq<Routing> {
    if |list| > lim.points then [] else PutAll([], list[..GoodPrefix(list, lim)])
  }

  /** Such a table holds exactly the last entry for every pair in the part of the list that was
      taken: nothing of a list that is too long, else what comes before the first bad entry. */
  lemma InstalledHolds(list: seq<Routing>, lim: Limits)
    ensures var taken := if |list| > lim.points then [] else list[..GoodPrefix(list, lim)];
      forall e :: e in Installed(list, lim) <==>
        (exists i :: 0 <= i < |taken| && taken[i] == e &&
           (forall j :: i < j < |taken| ==> taken[j].input != e.input || taken[j].output != e.output))
    ensures |list| <= lim.points && RoutingsInRange(list, lim) && DistinctPairs(list) ==>
      |Installed(list, lim)| == |list|
  {
    hide PutAll, DistinctPairs;
    PutAllHolds(if |list| > lim.points then [] else list[..GoodPrefix(list, lim)]);
    if |list| <= lim.points && RoutingsInRange(list, lim) && DistinctPairs(list) {
      assert list[..|list|] == list;
      PrefixEnds(list, |list|, lim);
      PutAllDistinct(list);
    }
  }

  lemma {:induction false} PrefixEnds(list: seq<Routing>, k: nat, lim: Limits)
    requires k <= |list| && RoutingsInRange(list[..k], lim) && (k < |list| ==> !InRange(list[k], lim))
    ensures GoodPrefix(list, lim) == k
  {
    if k > 0 {
      assert list[..k][0] == list[0];
      assert list[1..][..k - 1] == list[..k][1..];
      PrefixEnds(list[1..], k - 1, lim);
    }
  }
}
