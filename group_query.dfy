/** The query pipeline of the group canister (src/child/src/store.rs):
    the filter predicates, AND and OR filtering, the stable sort on one key
    and the byte window of a chunked export. */
module GroupQuery {
  import opened Wrappers
  import opened GroupModel

  // ---------------------------------------------------------------------
  // Filter predicates
  // ---------------------------------------------------------------------

  /** ASCII lower-casing of one character. */
  function LowerChar(c: char): char {
    if 'A' <= c <= 'Z' then (c as int + 32) as char else c
  }

  function Lower(s: string): (r: string)
    ensures |r| == |s|
    ensures forall i :: 0 <= i < |s| ==> r[i] == LowerChar(s[i])
  {
    if s == [] then [] else [LowerChar(s[0])] + Lower(s[1..])
  }

  /** `hay.contains(needle)` for strings. */
  predicate Contains(hay: string, needle: string) {
    needle <= hay || (hay != [] && Contains(hay[1..], needle))
  }

  /** `needle` occurs in `hay` starting at position `i`. */
  predicate OccursAt(hay: string, needle: string, i: nat) {
    i + |needle| <= |hay| && hay[i..i + |needle|] == needle
  }

  /** `Contains` is substring search: some position holds the needle. */
  lemma {:induction false} ContainsAt(hay: string, needle: string)
    ensures Contains(hay, needle) <==> exists i: nat :: OccursAt(hay, needle, i)
  {
    if needle <= hay {
      assert OccursAt(hay, needle, 0);
    } else {
      assert !OccursAt(hay, needle, 0);
    }
    if needle <= hay {
    } else if hay != [] {
      ContainsAt(hay[1..], needle);
      if Contains(hay[1..], needle) {
        var i: nat :| OccursAt(hay[1..], needle, i);
        assert OccursAt(hay, needle, i + 1);
      }
      forall i: nat | OccursAt(hay, needle, i) && i > 0 ensures OccursAt(hay[1..], needle, i - 1) {
        assert hay[1..][i - 1..i - 1 + |needle|] == hay[i..i + |needle|];
      }
      assert !OccursAt(hay, needle, 0);
    } else {
      assert forall i: nat :: !OccursAt(hay, needle, i);
    }
  }

  /** An inclusive date range; an end date of 0 leaves it open above. */
  predicate InDateRange(date: nat, range: DateRange) {
    if range.end_date > 0 then range.start_date <= date <= range.end_date
    else range.start_date <= date
  }

  /** Whether one group passes one filter. */
  predicate Matches(g: GroupResponse, f: GroupFilter) {
    match f
    case NameFilter(text) => Contains(Lower(g.name), Lower(text))
    case TagFilter(tag) => tag in g.tags
    case UpdatedOnFilter(range) => InDateRange(g.updated_on, range)
    case CreatedOnFilter(range) => InDateRange(g.created_on, range)
    case IdentifiersFilter(ids) => g.identifier in ids
    case OwnerFilter(owner) => g.owner == owner
    case MemberCountFilter(low, high) => low <= g.member_count <= high
  }

  predicate AllMatch(g: GroupResponse, fs: seq<GroupFilter>) {
    forall f :: f in fs ==> Matches(g, f)
  }

  predicate AnyMatch(g: GroupResponse, fs: seq<GroupFilter>) {
    exists f :: f in fs && Matches(g, f)
  }

  // ---------------------------------------------------------------------
  // AND filtering
  // ---------------------------------------------------------------------

  /** `a` is `b` with some elements dropped and the rest kept in order. */
  predicate IsSubsequence<T(==)>(a: seq<T>, b: seq<T>)
    decreases |b|
  {
    a == [] || (b != [] && ((a[0] == b[0] && IsSubsequence(a[1..], b[1..])) || IsSubsequence(a, b[1..])))
  }

  /** One pass of `.filter(..).collect()` with a single filter. */
  function KeepMatching(gs: seq<GroupResponse>, f: GroupFilter): seq<GroupResponse> {
    if gs == [] then []
    else (if Matches(gs[0], f) then [gs[0]] else []) + KeepMatching(gs[1..], f)
  }

  /** The groups, in input order, that pass every filter. */
  function KeepAll(gs: seq<GroupResponse>, fs: seq<GroupFilter>): (r: seq<GroupResponse>)
    ensures forall g :: g in r <==> g in gs && AllMatch(g, fs)
    ensures IsSubsequence(r, gs)
    ensures fs == [] ==> r == gs
    ensures DistinctIds(gs) ==> DistinctIds(r)
  {
    if gs == [] then []
    else
      var rest := KeepAll(gs[1..], fs);
      assert forall g :: g in gs <==> g == gs[0] || g in gs[1..];
      if AllMatch(gs[0], fs) then
        assert DistinctIds(gs) ==> gs[0].identifier !in Ids(rest);
        [gs[0]] + rest
      else rest
  }

  lemma {:induction false} NarrowOnce(gs: seq<GroupResponse>, fs: seq<GroupFilter>, f: GroupFilter)
    ensures KeepMatching(KeepAll(gs, fs), f) == KeepAll(gs, fs + [f])
  {
    if gs != [] {
      NarrowOnce(gs[1..], fs, f);
      var g := gs[0];
      assert AllMatch(g, fs + [f]) <==> AllMatch(g, fs) && Matches(g, f) by {
        assert forall h :: h in fs + [f] <==> h in fs || h == f;
      }
      if AllMatch(g, fs) {
        assert KeepAll(gs, fs) == [g] + KeepAll(gs[1..], fs);
        assert ([g] + KeepAll(gs[1..], fs))[1..] == KeepAll(gs[1..], fs);
      }
    }
  }

  /** AND filtering as the source runs it: the list is narrowed filter by
      filter. The result is the one-pass conjunction `KeepAll`. */
  method AndFilter(groups: seq<GroupResponse>, filters: seq<GroupFilter>) returns (r: seq<GroupResponse>)
    ensures r == KeepAll(groups, filters)
    ensures forall g :: g in r <==> g in groups && AllMatch(g, filters)
    ensures IsSubsequence(r, groups)
    ensures filters == [] ==> r == groups
  {
    r := groups;
    for i := 0 to |filters|
      invariant r == KeepAll(groups, filters[..i])
    {
      NarrowOnce(groups, filters[..i], filters[i]);
      assert filters[..i + 1] == filters[..i] + [filters[i]];
      r := KeepMatching(r, filters[i]);
    }
    assert filters[..|filters|] == filters;
  }

  // ---------------------------------------------------------------------
  // OR filtering
  // ---------------------------------------------------------------------

  predicate DistinctIds(gs: seq<GroupResponse>) {
    forall i, j :: 0 <= i < j < |gs| ==> gs[i].identifier != gs[j].identifier
  }

  function Ids(gs: seq<GroupResponse>): set<Principal> {
    set g | g in gs :: g.identifier
  }

  /** In a listing with distinct identifiers no group occurs twice. */
  lemma {:induction false} DistinctOnce(s: seq<GroupResponse>, x: GroupResponse)
    requires DistinctIds(s)
    ensures multiset(s)[x] <= 1
  {
    if s != [] {
      assert s == [s[0]] + s[1..];
      assert DistinctIds(s[1..]) by {
        forall i, j | 0 <= i < j < |s[1..]| ensures s[1..][i].identifier != s[1..][j].identifier {
          assert s[1..][i] == s[i + 1] && s[1..][j] == s[j + 1];
        }
      }
      DistinctOnce(s[1..], x);
      if x == s[0] {
        forall j | 0 <= j < |s[1..]| ensures s[1..][j] != x {
          assert s[1..][j] == s[j + 1];
        }
        assert x !in s[1..];
      }
    }
  }

  /** Rearranging a listing keeps its identifiers distinct. */
  lemma DistinctPermutation(a: seq<GroupResponse>, b: seq<GroupResponse>)
    requires DistinctIds(a) && multiset(a) == multiset(b)
    ensures DistinctIds(b)
  {
    forall i, j | 0 <= i < j < |b| ensures b[i].identifier != b[j].identifier {
      if b[i].identifier == b[j].identifier {
        assert b[i] in multiset(a) && b[j] in multiset(a);
        var p :| 0 <= p < |a| && a[p] == b[i];
        var q :| 0 <= q < |a| && a[q] == b[j];
        assert p == q;
        assert b == b[..j] + b[j..];
        assert b[i] in b[..j] && b[j] in b[j..];
        assert multiset(b)[b[i]] == multiset(b[..j])[b[i]] + multiset(b[j..])[b[i]];
        DistinctOnce(a, b[i]);
      }
    }
  }

  /** What the OR pass promises, whatever order the hash map yields:
      one entry per identifier, only matching input groups, and every
      matching identifier represented. */
  predicate IsOrResult(r: seq<GroupResponse>, groups: seq<GroupResponse>, filters: seq<GroupFilter>) {
    && DistinctIds(r)
    && (forall g :: g in r ==> g in groups && AnyMatch(g, filters))
    && (forall g :: g in groups && AnyMatch(g, filters) ==> g.identifier in Ids(r))
  }

  /** On input with distinct identifiers (every caller passes table rows),
      the OR result holds exactly the matching groups. */
  lemma OrResultExact(r: seq<GroupResponse>, groups: seq<GroupResponse>, filters: seq<GroupFilter>)
    requires IsOrResult(r, groups, filters) && DistinctIds(groups)
    ensures forall g :: g in r <==> g in groups && AnyMatch(g, filters)
    ensures |r| == |KeepMatchingAny(groups, filters)|
  {
    forall g | g in groups && AnyMatch(g, filters) ensures g in r {
      var h :| h in r && h.identifier == g.identifier;
      var i :| 0 <= i < |groups| && groups[i] == g;
      var j :| 0 <= j < |groups| && groups[j] == h;
      assert i == j;
    }
    DistinctCount(r, KeepMatchingAny(groups, filters), groups, filters);
  }

  /** The matching groups in input order, used to count the OR result. */
  function KeepMatchingAny(gs: seq<GroupResponse>, fs: seq<GroupFilter>): (r: seq<GroupResponse>)
    ensures forall g :: g in r <==> g in gs && AnyMatch(g, fs)
    ensures DistinctIds(gs) ==> DistinctIds(r)
  {
    if gs == [] then []
    else
      var rest := KeepMatchingAny(gs[1..], fs);
      assert forall g :: g in gs <==> g == gs[0] || g in gs[1..];
      if AnyMatch(gs[0], fs) then
        assert DistinctIds(gs) ==> gs[0].identifier !in Ids(rest);
        [gs[0]] + rest
      else rest
  }

  lemma DistinctCount(r: seq<GroupResponse>, k: seq<GroupResponse>, groups: seq<GroupResponse>, filters: seq<GroupFilter>)
    requires DistinctIds(r) && DistinctIds(groups)
    requires forall g :: g in r <==> g in groups && AnyMatch(g, filters)
    requires k == KeepMatchingAny(groups, filters)
    ensures |r| == |k|
  {
    var sr := set g | g in r;
    var sk := set g | g in k;
    assert sr == sk;
    DistinctCard(r);
    DistinctCard(k);
  }

  lemma {:induction false} DistinctCard(s: seq<GroupResponse>)
    requires DistinctIds(s)
    ensures |set g | g in s| == |s|
  {
    if s != [] {
      DistinctCard(s[1..]);
      assert s[0] !in s[1..];
      assert (set g | g in s) == {s[0]} + (set g | g in s[1..]);
    }
  }

  lemma AnyMatchSnoc(g: GroupResponse, fs: seq<GroupFilter>, f: GroupFilter)
    ensures AnyMatch(g, fs + [f]) <==> AnyMatch(g, fs) || Matches(g, f)
  {
    assert forall h :: h in fs + [f] <==> h in fs || h == f;
  }

  /** Every entry of the identifier-keyed table is a matching input group
      stored under its own identifier. */
  predicate TableSound(table: map<Principal, GroupResponse>, groups: seq<GroupResponse>, fs: seq<GroupFilter>) {
    forall k :: k in table ==> table[k] in groups && table[k].identifier == k && AnyMatch(table[k], fs)
  }

  /** Every matching input group has an entry under its identifier. */
  predicate TableComplete(table: map<Principal, GroupResponse>, groups: seq<GroupResponse>, fs: seq<GroupFilter>) {
    forall g :: g in groups && AnyMatch(g, fs) ==> g.identifier in table
  }

  /** The inner scan of one OR filter: every match is inserted into the
      table under its identifier. */
  method InsertMatches(table: map<Principal, GroupResponse>, groups: seq<GroupResponse>,
                       ghost fs: seq<GroupFilter>, f: GroupFilter)
    returns (table': map<Principal, GroupResponse>)
    requires TableSound(table, groups, fs) && TableComplete(table, groups, fs)
    ensures TableSound(table', groups, fs + [f]) && TableComplete(table', groups, fs + [f])
  {
    forall g ensures AnyMatch(g, fs + [f]) <==> AnyMatch(g, fs) || Matches(g, f) {
      AnyMatchSnoc(g, fs, f);
    }
    table' := table;
    for j := 0 to |groups|
      invariant TableSound(table', groups, fs + [f])
      invariant TableComplete(table', groups, fs)
      invariant forall i :: 0 <= i < j && Matches(groups[i], f) ==> groups[i].identifier in table'
    {
      if Matches(groups[j], f) {
        table' := table'[groups[j].identifier := groups[j]];
      }
    }
  }

  lemma DistinctSnoc(r: seq<GroupResponse>, g: GroupResponse)
    requires DistinctIds(r) && g.identifier !in Ids(r)
    ensures DistinctIds(r + [g]) && Ids(r + [g]) == Ids(r) + {g.identifier}
  {
    forall i | 0 <= i < |r| ensures r[i].identifier != g.identifier {
      assert r[i] in r;
    }
    assert forall h :: h in r + [g] <==> h in r || h == g;
  }

  /** The values of the table, one per key, in an unspecified order. */
  method TableValues(table: map<Principal, GroupResponse>) returns (r: seq<GroupResponse>)
    requires forall k :: k in table ==> table[k].identifier == k
    ensures DistinctIds(r) && Ids(r) == table.Keys
    ensures forall g :: g in r ==> g.identifier in table && table[g.identifier] == g
    ensures table == map[] ==> r == []
  {
    r := [];
    var keys := table.Keys;
    while keys != {}
      invariant keys <= table.Keys
      invariant forall g :: g in r ==> g.identifier in table && table[g.identifier] == g
      invariant Ids(r) == table.Keys - keys
      invariant DistinctIds(r)
      invariant table == map[] ==> r == []
      decreases |keys|
    {
      var k :| k in keys;
      var g := table[k];
      DistinctSnoc(r, g);
      r := r + [g];
      keys := keys - {k};
    }
  }

  /** OR filtering as the source runs it: every filter scans the whole list
      and inserts its matches into a map keyed by identifier; the map's
      values are then listed in an unspecified order. */
  method OrFilter(groups: seq<GroupResponse>, filters: seq<GroupFilter>) returns (r: seq<GroupResponse>)
    ensures IsOrResult(r, groups, filters)
    ensures filters == [] ==> r == []
  {
    var table: map<Principal, GroupResponse> := map[];
    for i := 0 to |filters|
      invariant TableSound(table, groups, filters[..i]) && TableComplete(table, groups, filters[..i])
    {
      table := InsertMatches(table, groups, filters[..i], filters[i]);
      assert filters[..i + 1] == filters[..i] + [filters[i]];
    }
    assert filters[..|filters|] == filters;
    if filters == [] {
      assert table == map[];
    }
    r := TableValues(table);
  }

  // ---------------------------------------------------------------------
  // Ordering
  // ---------------------------------------------------------------------

  /** `String::cmp`: lexicographic order on characters. */
  predicate LexLess(a: string, b: string) {
    if a == [] then b != []
    else if b == [] then false
    else a[0] < b[0] || (a[0] == b[0] && LexLess(a[1..], b[1..]))
  }

  lemma {:induction false} LexIrreflexive(a: string)
    ensures !LexLess(a, a)
  {
    if a != [] { LexIrreflexive(a[1..]); }
  }

  lemma {:induction false} LexTransitive(a: string, b: string, c: string)
    requires LexLess(a, b) && LexLess(b, c)
    ensures LexLess(a, c)
  {
    if a != [] && b != [] && c != [] && a[0] == b[0] == c[0] {
      LexTransitive(a[1..], b[1..], c[1..]);
    }
  }

  lemma {:induction false} LexTotal(a: string, b: string)
    requires a != b
    ensures LexLess(a, b) || LexLess(b, a)
  {
    if a != [] && b != [] && a[0] == b[0] {
      assert a == [a[0]] + a[1..] && b == [b[0]] + b[1..];
      LexTotal(a[1..], b[1..]);
    }
  }

  datatype SortKey = TextKey(text: string) | NumKey(num: nat)

  function Key(sort: GroupSort, g: GroupResponse): SortKey {
    match sort
    case SortByName(_) => TextKey(g.name)
    case SortByMemberCount(_) => NumKey(g.member_count)
    case SortByCreatedOn(_) => NumKey(g.created_on)
    case SortByUpdatedOn(_) => NumKey(g.updated_on)
  }

  function Direction(sort: GroupSort): SortDirection {
    match sort
    case SortByName(d) => d
    case SortByMemberCount(d) => d
    case SortByCreatedOn(d) => d
    case SortByUpdatedOn(d) => d
  }

  predicate KeyLess(a: SortKey, b: SortKey) {
    match (a, b)
    case (TextKey(x), TextKey(y)) => LexLess(x, y)
    case (NumKey(x), NumKey(y)) => x < y
    case _ => false
  }

  /** `a` must come strictly before `b` under the comparator of `sort`. */
  predicate Before(sort: GroupSort, a: GroupResponse, b: GroupResponse) {
    if Direction(sort) == Asc then KeyLess(Key(sort, a), Key(sort, b))
    else KeyLess(Key(sort, b), Key(sort, a))
  }

  lemma BeforeIrreflexive(sort: GroupSort, a: GroupResponse, b: GroupResponse)
    requires Key(sort, a) == Key(sort, b)
    ensures !Before(sort, a, b)
  {
    if sort.SortByName? { LexIrreflexive(a.name); }
  }

  lemma BeforeTransitive(sort: GroupSort, a: GroupResponse, b: GroupResponse, c: GroupResponse)
    requires Before(sort, a, b) && Before(sort, b, c)
    ensures Before(sort, a, c)
  {
    if sort.SortByName? {
      if Direction(sort) == Asc { LexTransitive(a.name, b.name, c.name); }
      else { LexTransitive(c.name, b.name, a.name); }
    }
  }

  lemma BeforeTotal(sort: GroupSort, a: GroupResponse, b: GroupResponse)
    requires Key(sort, a) != Key(sort, b)
    ensures Before(sort, a, b) || Before(sort, b, a)
  {
    if sort.SortByName? { LexTotal(a.name, b.name); }
  }

  /** No later element must come strictly before an earlier one. */
  predicate Sorted(s: seq<GroupResponse>, sort: GroupSort) {
    forall i, j :: 0 <= i < j < |s| ==> !Before(sort, s[j], s[i])
  }

  /** The elements of `s` whose sort key is `k`, in their order in `s`.
      A sort is stable when it keeps every such run unchanged. */
  function WithKey(s: seq<GroupResponse>, sort: GroupSort, k: SortKey): seq<GroupResponse> {
    if s == [] then []
    else (if Key(sort, s[0]) == k then [s[0]] else []) + WithKey(s[1..], sort, k)
  }

  lemma {:induction false} WithKeyAppend(s: seq<GroupResponse>, x: GroupResponse, sort: GroupSort, k: SortKey)
    ensures WithKey(s + [x], sort, k) == WithKey(s, sort, k) + (if Key(sort, x) == k then [x] else [])
  {
    if s != [] {
      assert (s + [x])[1..] == s[1..] + [x];
      WithKeyAppend(s[1..], x, sort, k);
    }
  }

  /** Inserts `x` after every element it does not have to precede. */
  function Insert(r: seq<GroupResponse>, x: GroupResponse, sort: GroupSort): (out: seq<GroupResponse>)
    ensures multiset(out) == multiset(r) + multiset{x}
  {
    if r == [] then [x]
    else if Before(sort, x, r[0]) then [x] + r
    else
      assert r == [r[0]] + r[1..];
      [r[0]] + Insert(r[1..], x, sort)
  }

  lemma {:induction false} InsertSorted(r: seq<GroupResponse>, x: GroupResponse, sort: GroupSort)
    requires Sorted(r, sort)
    ensures Sorted(Insert(r, x, sort), sort)
  {
    if r == [] {
    } else if Before(sort, x, r[0]) {
      var out := [x] + r;
      forall i, j | 0 <= i < j < |out| ensures !Before(sort, out[j], out[i]) {
        if i == 0 {
          if Before(sort, out[j], x) {
            BeforeTransitive(sort, out[j], x, r[0]);
            if j == 1 {
              BeforeIrreflexive(sort, r[0], r[0]);
            }
          }
        }
      }
    } else {
      InsertSorted(r[1..], x, sort);
      var rest := Insert(r[1..], x, sort);
      var out := [r[0]] + rest;
      forall j | 0 <= j < |rest| ensures !Before(sort, rest[j], r[0]) {
        assert rest[j] in multiset(rest);
        assert rest[j] == x || rest[j] in multiset(r[1..]);
        if rest[j] != x {
          var m :| 0 <= m < |r[1..]| && r[1..][m] == rest[j];
          assert r[m + 1] == rest[j];
        }
      }
      assert out == Insert(r, x, sort);
    }
  }

  lemma WithKeyCons(y: GroupResponse, s: seq<GroupResponse>, sort: GroupSort, k: SortKey)
    ensures WithKey([y] + s, sort, k) == (if Key(sort, y) == k then [y] else []) + WithKey(s, sort, k)
  {
    assert ([y] + s)[1..] == s;
  }

  lemma SortedTail(r: seq<GroupResponse>, sort: GroupSort)
    requires Sorted(r, sort) && r != []
    ensures Sorted(r[1..], sort)
  {
    forall i, j | 0 <= i < j < |r| - 1 ensures !Before(sort, r[1..][j], r[1..][i]) {
      assert r[1..][j] == r[j + 1] && r[1..][i] == r[i + 1];
    }
  }

  lemma InsertUnfold(r: seq<GroupResponse>, x: GroupResponse, sort: GroupSort)
    requires r != []
    ensures Before(sort, x, r[0]) ==> Insert(r, x, sort) == [x] + r
    ensures !Before(sort, x, r[0]) ==> Insert(r, x, sort) == [r[0]] + Insert(r[1..], x, sort)
  {
  }

  lemma {:induction false} InsertWithKey(r: seq<GroupResponse>, x: GroupResponse, sort: GroupSort, k: SortKey)
    requires Sorted(r, sort)
    ensures WithKey(Insert(r, x, sort), sort, k) == WithKey(r, sort, k) + (if Key(sort, x) == k then [x] else [])
  {
    if r != [] {
      InsertUnfold(r, x, sort);
      if Before(sort, x, r[0]) {
        InsertWithKeyFront(r, x, sort, k);
      } else {
        SortedTail(r, sort);
        InsertWithKey(r[1..], x, sort, k);
        InsertWithKeyStep(r, x, sort, k);
      }
    }
  }

  lemma InsertWithKeyFront(r: seq<GroupResponse>, x: GroupResponse, sort: GroupSort, k: SortKey)
    requires Sorted(r, sort) && r != [] && Before(sort, x, r[0])
    ensures WithKey([x] + r, sort, k) == WithKey(r, sort, k) + (if Key(sort, x) == k then [x] else [])
  {
    WithKeyCons(x, r, sort, k);
    if Key(sort, x) == k {
      // x strictly precedes r[0], so no element of r shares its key.
      NoneWithKey(r, x, sort);
    }
  }

  lemma InsertWithKeyStep(r: seq<GroupResponse>, x: GroupResponse, sort: GroupSort, k: SortKey)
    requires r != []
    requires WithKey(Insert(r[1..], x, sort), sort, k) == WithKey(r[1..], sort, k) + (if Key(sort, x) == k then [x] else [])
    ensures WithKey([r[0]] + Insert(r[1..], x, sort), sort, k) == WithKey(r, sort, k) + (if Key(sort, x) == k then [x] else [])
  {
    WithKeyCons(r[0], Insert(r[1..], x, sort), sort, k);
    WithKeyCons(r[0], r[1..], sort, k);
    assert [r[0]] + r[1..] == r;
  }

  lemma NoneWithKey(r: seq<GroupResponse>, x: GroupResponse, sort: GroupSort)
    requires Sorted(r, sort) && r != [] && Before(sort, x, r[0])
    ensures WithKey(r, sort, Key(sort, x)) == []
  {
    forall j | 0 <= j < |r| ensures Key(sort, r[j]) != Key(sort, x) {
      if Key(sort, r[j]) == Key(sort, x) {
        if j == 0 {
          BeforeIrreflexive(sort, x, r[0]);
        } else {
          assert Before(sort, r[j], r[0]);
        }
      }
    }
    WithKeyAbsent(r, sort, Key(sort, x));
  }

  lemma {:induction false} WithKeyAbsent(s: seq<GroupResponse>, sort: GroupSort, k: SortKey)
    requires forall j :: 0 <= j < |s| ==> Key(sort, s[j]) != k
    ensures WithKey(s, sort, k) == []
  {
    if s != [] {
      WithKeyAbsent(s[1..], sort, k);
    }
  }

  /** `sort_by` on one key: the result is sorted by that key in the chosen
      direction, is a permutation of the input, and elements with equal
      keys keep their input order. */
  method OrderGroups(groups: seq<GroupResponse>, sort: GroupSort) returns (r: seq<GroupResponse>)
    ensures Sorted(r, sort)
    ensures multiset(r) == multiset(groups)
    ensures forall k :: WithKey(r, sort, k) == WithKey(groups, sort, k)
    ensures DistinctIds(groups) ==> DistinctIds(r)
  {
    r := [];
    for i := 0 to |groups|
      invariant Sorted(r, sort)
      invariant multiset(r) == multiset(groups[..i])
      invariant forall k :: WithKey(r, sort, k) == WithKey(groups[..i], sort, k)
    {
      var x := groups[i];
      assert groups[..i + 1] == groups[..i] + [x];
      forall k ensures WithKey(Insert(r, x, sort), sort, k) == WithKey(groups[..i + 1], sort, k) {
        InsertWithKey(r, x, sort, k);
        WithKeyAppend(groups[..i], x, sort, k);
      }
      InsertSorted(r, x, sort);
      r := Insert(r, x, sort);
    }
    assert groups[..|groups|] == groups;
    if DistinctIds(groups) {
      DistinctPermutation(groups, r);
    }
  }

  /** A stable sort is determined by its input: two sorted arrangements that
      agree on every run of equal keys are the same sequence. */
  lemma {:induction false} StableSortUnique(a: seq<GroupResponse>, b: seq<GroupResponse>, sort: GroupSort)
    requires Sorted(a, sort) && Sorted(b, sort)
    requires forall k :: WithKey(a, sort, k) == WithKey(b, sort, k)
    ensures a == b
    decreases |a| + |b|
  {
    if a == [] || b == [] {
      // A non-empty side has a non-empty run for the key of its head.
      if a != [] { WithKeyHead(a, sort); }
      if b != [] { WithKeyHead(b, sort); }
    } else {
      var ka, kb := Key(sort, a[0]), Key(sort, b[0]);
      if ka != kb {
        BeforeTotal(sort, a[0], b[0]);
        if Before(sort, a[0], b[0]) {
          // a[0]'s key must appear in b, at a position after b[0]
          KeyOccurs(b, sort, ka);
          var j :| 0 <= j < |b| && Key(sort, b[j]) == ka;
          assert j != 0;
          assert !Before(sort, b[j], b[0]);
          assert Before(sort, b[j], b[0]) by {
            if Direction(sort) == Asc {} else {}
          }
        } else {
          KeyOccurs(a, sort, kb);
          var j :| 0 <= j < |a| && Key(sort, a[j]) == kb;
          assert j != 0;
          assert Before(sort, a[j], a[0]) by {
            if Direction(sort) == Asc {} else {}
          }
        }
      } else {
        assert WithKey(a, sort, ka)[0] == a[0];
        assert WithKey(b, sort, ka)[0] == b[0];
        assert a[0] == b[0];
        assert [a[0]] + a[1..] == a && [b[0]] + b[1..] == b;
        forall k ensures WithKey(a[1..], sort, k) == WithKey(b[1..], sort, k) {
          WithKeyCons(a[0], a[1..], sort, k);
          WithKeyCons(b[0], b[1..], sort, k);
          var head := if k == ka then [a[0]] else [];
          assert WithKey(a, sort, k) == head + WithKey(a[1..], sort, k);
          assert WithKey(b, sort, k) == head + WithKey(b[1..], sort, k);
          assert (head + WithKey(a[1..], sort, k))[|head|..] == WithKey(a[1..], sort, k);
          assert (head + WithKey(b[1..], sort, k))[|head|..] == WithKey(b[1..], sort, k);
        }
        StableSortUnique(a[1..], b[1..], sort);
        assert a == [a[0]] + a[1..] && b == [b[0]] + b[1..];
      }
    }
  }

  lemma WithKeyHead(s: seq<GroupResponse>, sort: GroupSort)
    requires s != []
    ensures WithKey(s, sort, Key(sort, s[0])) != []
  {
  }

  lemma {:induction false} KeyOccurs(s: seq<GroupResponse>, sort: GroupSort, k: SortKey)
    requires WithKey(s, sort, k) != []
    ensures exists j :: 0 <= j < |s| && Key(sort, s[j]) == k
  {
    if Key(sort, s[0]) != k {
      KeyOccurs(s[1..], sort, k);
      var j :| 0 <= j < |s[1..]| && Key(sort, s[1..][j]) == k;
      assert Key(sort, s[j + 1]) == k;
    }
  }

  // ---------------------------------------------------------------------
  // Chunked export
  // ---------------------------------------------------------------------

  /** The reply of one chunk request: the bytes and `(chunk, last)`. */
  datatype ChunkReply = ChunkReply(bytes: seq<byte>, chunk: nat, last: nat)

  function Min(a: nat, b: nat): nat { if a <= b then a else b }

  /** The byte window of `get_chunked_data` over an already serialised
      payload. `None` stands for a trap of the canister: a slice that starts
      past the end, or a division by a zero chunk size. */
  function ChunkWindow(payload: seq<byte>, chunk: nat, max: nat): (r: Option<ChunkReply>)
    ensures |payload| < max ==> r == Some(ChunkReply(payload, 0, 0))
    ensures |payload| >= max ==>
      (r.None? <==> chunk * max > |payload| || (max == 0 && |payload| > 0))
    ensures |payload| >= max && r.Some? ==>
      && chunk * max <= Min((chunk + 1) * max, |payload|)
      && r.value.bytes == payload[chunk * max .. Min((chunk + 1) * max, |payload|)]
      && r.value.chunk == chunk
      && r.value.last == (if max < |payload| then |payload| / max else 0)
  {
    if |payload| >= max then
      var start := chunk * max;
      var end := (chunk + 1) * max;
      if start > |payload| then None
      else if max < |payload| && max == 0 then None
      else
        var response := if end >= |payload| then payload[start..] else payload[start..end];
        Some(ChunkReply(response, chunk, if max < |payload| then |payload| / max else 0))
    else Some(ChunkReply(payload, 0, 0))
  }

  /** The bytes of chunks `from .. to - 1`, concatenated. */
  function Chunks(payload: seq<byte>, max: nat, from: nat, to: nat): seq<byte>
    decreases if to > from then to - from else 0
  {
    if from >= to then []
    else
      var w := ChunkWindow(payload, from, max);
      (if w.Some? then w.value.bytes else []) + Chunks(payload, max, from + 1, to)
  }

  lemma MulFacts(a: nat, b: nat, m: nat)
    requires a <= b
    ensures (a + 1) * m == a * m + m
    ensures a * m <= b * m
  {
  }

  lemma {:induction false} ChunksPrefix(payload: seq<byte>, max: nat, from: nat, to: nat)
    requires 0 < max <= |payload|
    requires from <= to && from * max <= |payload|
    ensures Chunks(payload, max, from, to) == payload[from * max .. Min(to * max, |payload|)]
    decreases if to > from then to - from else 0
  {
    if from < to {
      var lo, hi, top := from * max, (from + 1) * max, Min(to * max, |payload|);
      MulFacts(from, to, max);
      MulFacts(from + 1, to, max);
      var w := ChunkWindow(payload, from, max);
      assert w.Some? && w.value.bytes == payload[lo .. Min(hi, |payload|)];
      assert Chunks(payload, max, from, to) == w.value.bytes + Chunks(payload, max, from + 1, to);
      if hi <= |payload| {
        ChunksPrefix(payload, max, from + 1, to);
        assert payload[lo..hi] + payload[hi..top] == payload[lo..top];
      } else {
        ChunksBeyond(payload, max, from + 1, to);
        assert top == |payload|;
      }
    }
  }

  lemma {:induction false} ChunksBeyond(payload: seq<byte>, max: nat, from: nat, to: nat)
    requires 0 < max <= |payload| && from * max > |payload|
    ensures Chunks(payload, max, from, to) == []
    decreases if to > from then to - from else 0
  {
    if from < to {
      MulFacts(from, from + 1, max);
      assert ChunkWindow(payload, from, max).None?;
      ChunksBeyond(payload, max, from + 1, to);
    }
  }

  /** Chunk round trip: when the payload is split (its length reaches the
      chunk size), fetching chunks `0 ..= last` with the `last` that chunk 0
      reports and concatenating them gives back the whole payload. */
  lemma ChunkRoundTrip(payload: seq<byte>, max: nat)
    requires 0 < max <= |payload|
    ensures ChunkWindow(payload, 0, max).Some?
    ensures Chunks(payload, max, 0, ChunkWindow(payload, 0, max).value.last + 1) == payload
  {
    var last := ChunkWindow(payload, 0, max).value.last;
    ChunksPrefix(payload, max, 0, last + 1);
    if max < |payload| {
      DivBound(|payload|, max);
    }
  }

  lemma DivBound(n: nat, d: nat)
    requires 0 < d
    ensures (n / d + 1) * d > n
  {
  }
}
