/** The local-file post store (nextjs-blog/lib/posts-json.js). Reading and
    parsing `data/posts.json` is replaced by the parsed record sequence,
    passed to each operation in file order. */
module PostsJson {
  import opened Values
  import opened PostShape

  /** `getSortedPostsData()`: the records sorted by title, each projected to
      its summary. */
  method GetSortedPostsData(posts: seq<Record>, cmp: Comparator) returns (summaries: seq<Record>)
    requires IsTotalPreorder(cmp)
    requires AllHaveIds(posts)
    requires SortableTitles(posts)
    ensures |summaries| == |posts|
    ensures SortedByTitle(summaries, cmp)
    ensures multiset(summaries) == multiset(ProjectAll(posts))
    ensures forall k :: 0 <= k < |summaries| ==> summaries[k].Keys == SummaryFields
  {
    summaries := SortAndSummarize(posts, cmp);
  }

  /** `getAllPostIds()`: one route entry per record, in file order. */
  function GetAllPostIds(posts: seq<Record>): (paths: seq<PathEntry>)
    requires AllHaveIds(posts)
    ensures |paths| == |posts|
    ensures forall i :: 0 <= i < |posts| ==> paths[i].params.id == IdString(posts[i])
  {
    IdsToPaths(posts)
  }

  /** `obj.id.toString() === id`. */
  predicate IdMatches(r: Record, id: string): (b: bool)
    ensures Field(r, "id").Str? ==> (b <==> Field(r, "id").s == id)
    ensures Field(r, "id").Num? ==> (b <==> IntToDecimal(Field(r, "id").n) == id)
    ensures Field(r, "id").Bool? ==> (b <==> id == (if Field(r, "id").b then "true" else "false"))
    ensures !HasStringId(r) ==> !b
  {
    HasStringId(r) && IdString(r) == id
  }

  /** Index `i` holds the first record, in file order, whose id matches. */
  ghost predicate IsFirstMatch(posts: seq<Record>, id: string, i: int)
  {
    0 <= i < |posts| && IdMatches(posts[i], id) && forall j :: 0 <= j < i ==> !IdMatches(posts[j], id)
  }

  /** `jsonObj.filter(obj => obj.id.toString() === id)`. */
  function FilterById(posts: seq<Record>, id: string): (matches: seq<Record>)
    requires AllHaveIds(posts)
    ensures forall k :: 0 <= k < |matches| ==> matches[k] in posts && IdMatches(matches[k], id)
    ensures forall r :: r in posts && IdMatches(r, id) ==> r in matches
    ensures forall i :: IsFirstMatch(posts, id, i) ==> matches != [] && matches[0] == posts[i]
  {
    if posts == [] then []
    else
      var rest := FilterById(posts[1..], id);
      assert forall i :: IsFirstMatch(posts, id, i) && i > 0 ==> IsFirstMatch(posts[1..], id, i - 1);
      if IdMatches(posts[0], id) then [posts[0]] + rest else rest
  }

  /** `getPostData(id)`: the first record whose id, in string form, equals
      `id`; otherwise the "Not found" sentinel. */
  function GetPostData(posts: seq<Record>, id: string): (post: Record)
    requires AllHaveIds(posts)
    ensures (forall r :: r in posts ==> !IdMatches(r, id)) ==> post == NotFound(id)
    ensures (exists r :: r in posts && IdMatches(r, id)) ==> post in posts
    ensures forall i :: IsFirstMatch(posts, id, i) ==> post == posts[i]
    ensures IdMatches(post, id)
  {
    var matches := FilterById(posts, id);
    if |matches| == 0 then NotFound(id) else matches[0]
  }

  /** A record that matches the request always leaves a first match. */
  lemma {:induction false} FirstMatchExists(posts: seq<Record>, id: string, i: int)
    requires 0 <= i < |posts| && IdMatches(posts[i], id)
    ensures exists f :: 0 <= f <= i && IsFirstMatch(posts, id, f)
    decreases i
  {
    if !IsFirstMatch(posts, id, i) {
      var j :| 0 <= j < i && IdMatches(posts[j], id);
      FirstMatchExists(posts, id, j);
    }
  }

  /** Every statically generated route resolves to a stored post: the
      lookup of a route id returns the first record carrying that id. */
  lemma RoutesResolve(posts: seq<Record>, k: int)
    requires AllHaveIds(posts) && 0 <= k < |posts|
    ensures var id := GetAllPostIds(posts)[k].params.id;
            exists f :: 0 <= f <= k && IsFirstMatch(posts, id, f) && GetPostData(posts, id) == posts[f]
  {
    FirstMatchExists(posts, IdString(posts[k]), k);
  }

  /** Every summary on the post list links to a stored post. */
  lemma SummaryLinksResolve(posts: seq<Record>, k: int)
    requires AllHaveIds(posts) && 0 <= k < |posts|
    ensures var id := ToStr(ProjectAll(posts)[k]["id"]);
            id == IdString(posts[k]) && GetPostData(posts, id) in posts
  {
    var s := ProjectAll(posts)[k];
    assert s == Project(posts[k]);
    assert s["id"] == Str(IdString(posts[k]));
    assert posts[k] in posts && IdMatches(posts[k], IdString(posts[k]));
  }

  /** The id comparison is on string forms: a numeric id and the string of
      its digits both answer the request for those digits. */
  lemma NumericAndStringIdsMatch(n: SafeInt, rest: Record)
    ensures GetPostData([rest["id" := Num(n)]], IntToDecimal(n)) == rest["id" := Num(n)]
    ensures GetPostData([rest["id" := Str(IntToDecimal(n))]], IntToDecimal(n)) == rest["id" := Str(IntToDecimal(n))]
  {
    var p := [rest["id" := Num(n)]];
    var q := [rest["id" := Str(IntToDecimal(n))]];
    assert IsFirstMatch(p, IntToDecimal(n), 0);
    assert IsFirstMatch(q, IntToDecimal(n), 0);
  }

  /** With duplicate ids the lookup returns the earlier record. */
  lemma DuplicateIdsFirstWins(first: Record, second: Record, id: string)
    requires IdMatches(first, id) && IdMatches(second, id)
    ensures GetPostData([first, second], id) == first
  {
    assert IsFirstMatch([first, second], id, 0);
  }

  /** The sentinel is indistinguishable from a stored post that happens to
      equal it: the lookup result alone cannot tell "absent" from "found". */
  lemma SentinelIsAmbiguous(id: string)
    ensures GetPostData([NotFound(id)], id) == GetPostData([], id)
  {
    assert IsFirstMatch([NotFound(id)], id, 0);
  }

  /** A two-post example file. */
  function ExamplePosts(): seq<Record>
  {
    [ map["id" := Num(1), "title" := Str("B"), "date" := Str("2020-01-01"), "author" := Str("A")],
      map["id" := Num(2), "title" := Str("A"), "date" := Str("2020-02-02"), "author" := Str("B")] ]
  }

  /** On the example file every result the listing may return is the
      summary of post 2 followed by that of post 1. */
  lemma ExampleListing(summaries: seq<Record>, cmp: Comparator)
    requires IsTotalPreorder(cmp) && cmp("B", "A") > 0
    requires AllHaveIds(ExamplePosts())
    requires multiset(summaries) == multiset(ProjectAll(ExamplePosts()))
    requires SortedByTitle(summaries, cmp)
    ensures summaries == [
      map["id" := Str("2"), "title" := Str("A"), "date" := Str("2020-02-02"), "author" := Str("B")],
      map["id" := Str("1"), "title" := Str("B"), "date" := Str("2020-01-01"), "author" := Str("A")] ]
  {
    var s2 := map["id" := Str("2"), "title" := Str("A"), "date" := Str("2020-02-02"), "author" := Str("B")];
    var s1 := map["id" := Str("1"), "title" := Str("B"), "date" := Str("2020-01-01"), "author" := Str("A")];
    var posts := ExamplePosts();
    assert NatToDecimal(1) == "1" && NatToDecimal(2) == "2";
    assert Project(posts[0]) == s1;
    assert Project(posts[1]) == s2;
    assert ProjectAll(posts) == [s1, s2];
    assert multiset(summaries) == multiset{s1, s2};
    assert |summaries| == 2 by {
      assert |summaries| == |multiset(summaries)|;
    }
    assert summaries[0] in multiset(summaries) && summaries[1] in multiset(summaries);
    if summaries[0] == s1 {
      assert false;
    }
    assert summaries[0] == s2;
    assert summaries == [s2, summaries[1]];
    assert multiset(summaries) == multiset{s2, summaries[1]};
  }

  /** On the example file, the request for "99" gets the sentinel. */
  lemma ExampleNotFound()
    ensures AllHaveIds(ExamplePosts())
    ensures GetPostData(ExamplePosts(), "99") == NotFound("99")
  {
    assert NatToDecimal(1) == "1" && NatToDecimal(2) == "2";
  }
}
