/** The data shaping both post stores perform after reading their records:
    sorting by title, projecting to list summaries, wrapping ids as route
    parameters, and the "Not found" sentinel. */
module PostShape {
  import opened Values

  /** `String.prototype.localeCompare`, kept abstract: negative, zero or
      positive as the first title sorts before, with or after the second. */
  type Comparator = (string, string) -> int

  /** What the sort relies on: "sorts no later than" (`cmp(a, b) <= 0`) is
      total and transitive, so it is a total preorder on titles. */
  ghost predicate IsTotalPreorder(cmp: Comparator)
  {
    && (forall a, b :: cmp(a, b) <= 0 || cmp(b, a) <= 0)
    && (forall a, b, c :: cmp(a, b) <= 0 && cmp(b, c) <= 0 ==> cmp(a, c) <= 0)
  }

  predicate HasStringTitle(r: Record)
  {
    "title" in r && r["title"].Str?
  }

  /** The title as the comparator sees it; only consulted where every
      title is a string. */
  function TitleText(r: Record): string
  {
    if HasStringTitle(r) then r["title"].s else ""
  }

  /** `a.title.localeCompare(b.title)` throws unless `a.title` is a string.
      A comparison sort calls the comparator on every element once there
      are two or more, and never on fewer. */
  predicate SortableTitles(posts: seq<Record>)
  {
    |posts| <= 1 || forall r :: r in posts ==> HasStringTitle(r)
  }

  predicate TitleLe(cmp: Comparator, x: Record, y: Record)
  {
    cmp(TitleText(x), TitleText(y)) <= 0
  }

  ghost predicate SortedByTitle(posts: seq<Record>, cmp: Comparator)
  {
    forall i, j :: 0 <= i < j < |posts| ==> TitleLe(cmp, posts[i], posts[j])
  }

  /** `item.id.toString()` succeeds. */
  predicate HasStringId(r: Record)
  {
    HasToString(Field(r, "id"))
  }

  predicate AllHaveIds(posts: seq<Record>)
  {
    forall i :: 0 <= i < |posts| ==> HasStringId(posts[i])
  }

  /** `r.id.toString()`. */
  function IdString(r: Record): string
    requires HasStringId(r)
  {
    ToStr(Field(r, "id"))
  }

  /** The fields a list summary carries. */
  const SummaryFields: set<string> := {"id", "title", "date", "author"}

  /** A post summary: the id in string form, and title, date and author as
      stored (undefined when the record lacks them). */
  function Project(r: Record): (s: Record)
    requires HasStringId(r)
    ensures s.Keys == SummaryFields
    ensures s["id"] == Str(IdString(r))
    ensures forall k :: k in s && k != "id" ==> s[k] == Field(r, k)
    ensures TitleText(s) == TitleText(r)
  {
    map["id" := Str(IdString(r)), "title" := Field(r, "title"),
        "date" := Field(r, "date"), "author" := Field(r, "author")]
  }

  /** `posts.map(item => summary of item)`. */
  function ProjectAll(posts: seq<Record>): (summaries: seq<Record>)
    requires AllHaveIds(posts)
    ensures |summaries| == |posts|
    ensures forall i :: 0 <= i < |posts| ==> summaries[i] == Project(posts[i])
  {
    if posts == [] then [] else [Project(posts[0])] + ProjectAll(posts[1..])
  }

  /** Projection keeps titles, so it keeps title order. */
  lemma ProjectAllSorted(posts: seq<Record>, cmp: Comparator)
    requires AllHaveIds(posts) && SortedByTitle(posts, cmp)
    ensures SortedByTitle(ProjectAll(posts), cmp)
  {
    var summaries := ProjectAll(posts);
    forall i, j | 0 <= i < j < |summaries|
      ensures TitleLe(cmp, summaries[i], summaries[j])
    {
      assert TitleLe(cmp, posts[i], posts[j]);
    }
  }

  /** `map` distributes over concatenation. */
  lemma ProjectAllConcat(p: seq<Record>, q: seq<Record>)
    requires AllHaveIds(p) && AllHaveIds(q)
    ensures AllHaveIds(p + q) && ProjectAll(p + q) == ProjectAll(p) + ProjectAll(q)
  {
    assert AllHaveIds(p + q) by {
      forall i | 0 <= i < |p + q| ensures HasStringId((p + q)[i]) {
        if i >= |p| { assert (p + q)[i] == q[i - |p|]; }
      }
    }
  }

  lemma SlicesKeepIds(b: seq<Record>, k: int)
    requires AllHaveIds(b) && 0 <= k < |b|
    ensures AllHaveIds(b[..k]) && AllHaveIds(b[k + 1..])
    ensures b == b[..k] + ([b[k]] + b[k + 1..])
  {
    assert forall i :: 0 <= i < k ==> b[..k][i] == b[i];
    var rest := b[k + 1..];
    forall i | 0 <= i < |rest| ensures HasStringId(rest[i]) {
      assert rest[i] == b[k + 1 + i];
    }
  }

  /** Projecting `b` gives the projections of `b` without its `k`-th
      record, and the summary of that record. */
  lemma ProjectAllRemove(b: seq<Record>, k: int)
    requires AllHaveIds(b) && 0 <= k < |b|
    ensures AllHaveIds(b[..k] + b[k + 1..])
    ensures multiset(ProjectAll(b)) == multiset(ProjectAll(b[..k] + b[k + 1..])) + multiset{Project(b[k])}
  {
    var p, x, q := b[..k], b[k], b[k + 1..];
    SlicesKeepIds(b, k);
    ProjectAllConcat(p, q);
    ProjectAllConcat([x], q);
    ProjectAllConcat(p, [x] + q);
  }

  /** In a permutation `b` of `a` some position holds `a[0]`; removing it
      from `b` and `a[0]` from `a` leaves permutations of each other. */
  lemma RemoveMatching<T>(a: seq<T>, b: seq<T>) returns (k: int)
    requires a != [] && multiset(a) == multiset(b)
    ensures 0 <= k < |b| && b[k] == a[0]
    ensures multiset(a[1..]) == multiset(b[..k] + b[k + 1..])
  {
    assert a[0] in multiset(b);
    k :| 0 <= k < |b| && b[k] == a[0];
    assert b == b[..k] + [b[k]] + b[k + 1..];
    assert multiset(b) == multiset(b[..k]) + multiset{b[k]} + multiset(b[k + 1..]);
    assert a == [a[0]] + a[1..];
    assert multiset(a) == multiset{a[0]} + multiset(a[1..]);
    assert multiset(b[..k] + b[k + 1..]) == multiset(b[..k]) + multiset(b[k + 1..]);
    assert multiset(a[1..]) == multiset(a) - multiset{a[0]};
  }

  /** Every record of a permutation of id-carrying records carries an id. */
  lemma PermutationKeepsIds(a: seq<Record>, b: seq<Record>)
    requires AllHaveIds(a) && multiset(a) == multiset(b)
    ensures AllHaveIds(b)
  {
    forall i | 0 <= i < |b| ensures HasStringId(b[i]) {
      assert b[i] in multiset(a);
    }
  }

  lemma ProjectAllCons(a: seq<Record>)
    requires AllHaveIds(a) && a != []
    ensures AllHaveIds(a[1..])
    ensures multiset(ProjectAll(a)) == multiset{Project(a[0])} + multiset(ProjectAll(a[1..]))
  {
    assert ProjectAll(a) == [Project(a[0])] + ProjectAll(a[1..]);
  }

  /** Projecting a permutation of the records gives a permutation of the
      summaries. */
  lemma {:induction false} ProjectAllPermutation(a: seq<Record>, b: seq<Record>)
    requires AllHaveIds(a) && multiset(a) == multiset(b)
    ensures AllHaveIds(b)
    ensures multiset(ProjectAll(a)) == multiset(ProjectAll(b))
  {
    PermutationKeepsIds(a, b);
    if a == [] {
      assert |b| == |multiset(b)| == 0;
    } else {
      var k := RemoveMatching(a, b);
      ProjectAllRemove(b, k);
      ProjectAllPermutation(a[1..], b[..k] + b[k + 1..]);
      ProjectAllCons(a);
    }
  }

  /** The first `i + 1` records are in title order, except possibly the
      one at `j`. */
  ghost predicate SortedExcept(s: seq<Record>, i: int, j: int, cmp: Comparator)
    requires 0 <= j <= i < |s|
  {
    forall k, l :: 0 <= k < l <= i && k != j && l != j ==> TitleLe(cmp, s[k], s[l])
  }

  /** The record at `j` sorts no later than those after it, up to `i`. */
  ghost predicate SortsBeforeRest(s: seq<Record>, i: int, j: int, cmp: Comparator)
    requires 0 <= j <= i < |s|
  {
    forall l :: j < l <= i ==> TitleLe(cmp, s[j], s[l])
  }

  lemma InsertionStart(s: seq<Record>, i: int, cmp: Comparator)
    requires 0 <= i < |s| && SortedByTitle(s[..i], cmp)
    ensures SortedExcept(s, i, i, cmp) && SortsBeforeRest(s, i, i, cmp)
  {
    forall k, l | 0 <= k < l <= i && k != i && l != i
      ensures TitleLe(cmp, s[k], s[l])
    {
      assert s[k] == s[..i][k] && s[l] == s[..i][l];
    }
  }

  /** Swapping the record at `j` with a predecessor that sorts strictly
      later moves the hole one place to the left. */
  lemma InsertionSwap(s: seq<Record>, i: int, j: int, cmp: Comparator)
    requires IsTotalPreorder(cmp)
    requires 0 < j <= i < |s|
    requires SortedExcept(s, i, j, cmp) && SortsBeforeRest(s, i, j, cmp)
    requires cmp(TitleText(s[j - 1]), TitleText(s[j])) > 0
    ensures SortedExcept(s[j - 1 := s[j]][j := s[j - 1]], i, j - 1, cmp)
    ensures SortsBeforeRest(s[j - 1 := s[j]][j := s[j - 1]], i, j - 1, cmp)
  {
    var t := s[j - 1 := s[j]][j := s[j - 1]];
    assert TitleLe(cmp, s[j], s[j - 1]);
    forall k, l | 0 <= k < l <= i && k != j - 1 && l != j - 1
      ensures TitleLe(cmp, t[k], t[l])
    {
      if k == j {
        assert t[k] == s[j - 1] && t[l] == s[l];
      } else if l == j {
        assert t[k] == s[k] && t[l] == s[j - 1];
      } else {
        assert t[k] == s[k] && t[l] == s[l];
      }
    }
    forall l | j - 1 < l <= i
      ensures TitleLe(cmp, t[j - 1], t[l])
    {
      assert t[j - 1] == s[j];
    }
  }

  /** Swapping two neighbours keeps the same records. */
  lemma SwapKeepsRecords(s: seq<Record>, j: int)
    requires 0 < j < |s|
    ensures multiset(s[j - 1 := s[j]][j := s[j - 1]]) == multiset(s)
  {
  }

  /** Once the record at `j` sorts no earlier than its predecessor, the
      first `i + 1` records are in title order. */
  lemma InsertionDone(s: seq<Record>, i: int, j: int, cmp: Comparator)
    requires IsTotalPreorder(cmp)
    requires 0 <= j <= i < |s|
    requires SortedExcept(s, i, j, cmp) && SortsBeforeRest(s, i, j, cmp)
    requires j == 0 || TitleLe(cmp, s[j - 1], s[j])
    ensures SortedByTitle(s[..i + 1], cmp)
  {
    var t := s[..i + 1];
    forall k, l | 0 <= k < l < |t|
      ensures TitleLe(cmp, t[k], t[l])
    {
      if l == j && k < j - 1 {
        assert TitleLe(cmp, s[k], s[j - 1]);
      }
    }
  }

  /** `jsonObj.sort((a, b) => a.title.localeCompare(b.title))`: sorts the
      records in place, non-decreasing by title. */
  method SortByTitle(a: array<Record>, cmp: Comparator)
    requires IsTotalPreorder(cmp)
    requires SortableTitles(a[..])
    modifies a
    ensures SortedByTitle(a[..], cmp)
    ensures multiset(a[..]) == multiset(old(a[..]))
  {
    var i := 0;
    while i < a.Length
      invariant 0 <= i <= a.Length
      invariant SortedByTitle(a[..i], cmp)
      invariant multiset(a[..]) == multiset(old(a[..]))
    {
      InsertAt(a, i, cmp);
      i := i + 1;
    }
    assert a[..] == a[..a.Length];
  }

  /** One insertion step: moves the record at `i` left past the records
      that sort strictly later, so the first `i + 1` are in title order. */
  method InsertAt(a: array<Record>, i: int, cmp: Comparator)
    requires IsTotalPreorder(cmp)
    requires 0 <= i < a.Length && SortedByTitle(a[..i], cmp)
    modifies a
    ensures SortedByTitle(a[..i + 1], cmp)
    ensures multiset(a[..]) == multiset(old(a[..]))
    ensures a[i + 1..] == old(a[i + 1..])
  {
    InsertionStart(a[..], i, cmp);
    var j := i;
    while 0 < j && cmp(TitleText(a[j - 1]), TitleText(a[j])) > 0
      invariant 0 <= j <= i
      invariant SortedExcept(a[..], i, j, cmp) && SortsBeforeRest(a[..], i, j, cmp)
      invariant multiset(a[..]) == multiset(old(a[..]))
      invariant a[i + 1..] == old(a[i + 1..])
    {
      ghost var s := a[..];
      InsertionSwap(s, i, j, cmp);
      SwapKeepsRecords(s, j);
      a[j - 1], a[j] := a[j], a[j - 1];
      assert a[..] == s[j - 1 := s[j]][j := s[j - 1]];
      j := j - 1;
    }
    InsertionDone(a[..], i, j, cmp);
  }

  /** Sort the records by title, then project each one to its summary. */
  method SortAndSummarize(posts: seq<Record>, cmp: Comparator) returns (summaries: seq<Record>)
    requires IsTotalPreorder(cmp)
    requires AllHaveIds(posts)
    requires SortableTitles(posts)
    ensures |summaries| == |posts|
    ensures SortedByTitle(summaries, cmp)
    ensures multiset(summaries) == multiset(ProjectAll(posts))
    ensures forall k :: 0 <= k < |summaries| ==> summaries[k].Keys == SummaryFields
  {
    var a := new Record[|posts|](i requires 0 <= i < |posts| => posts[i]);
    assert a[..] == posts;
    SortByTitle(a, cmp);
    ProjectAllPermutation(posts, a[..]);
    ProjectAllSorted(a[..], cmp);
    summaries := ProjectAll(a[..]);
  }

  /** The parameter object of one statically generated route. */
  datatype RouteParams = RouteParams(id: string)

  /** `{ params: { id } }`, one entry of the static path list. */
  datatype PathEntry = PathEntry(params: RouteParams)

  /** `posts.map(item => ({ params: { id: item.id.toString() } }))`. */
  function IdsToPaths(posts: seq<Record>): (paths: seq<PathEntry>)
    requires AllHaveIds(posts)
    ensures |paths| == |posts|
    ensures forall i :: 0 <= i < |posts| ==> paths[i].params.id == IdString(posts[i])
  {
    seq(|posts|, i requires 0 <= i < |posts| => PathEntry(RouteParams(IdString(posts[i]))))
  }

  /** The record returned for an id that matches no post. */
  function NotFound(id: string): (r: Record)
    ensures r.Keys == {"id", "title", "date", "contentHtml"}
    ensures r["id"] == Str(id) && r["title"] == Str("Not found")
    ensures r["date"] == Str("") && r["contentHtml"] == Str("Not found")
  {
    map["id" := Str(id), "title" := Str("Not found"), "date" := Str(""), "contentHtml" := Str("Not found")]
  }
}
