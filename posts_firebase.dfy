/** The Firestore post store (nextjs-blog/lib/posts-firebase.js). The
    "posts" collection is replaced by its snapshot: the documents in the
    order the query returns them, each with its document id and its data. */
module PostsFirebase {
  import opened Values
  import opened PostShape

  /** What Firestore accepts as a document id in a collection, and so what
      `where(documentId(), "==", id)` accepts: a non-empty id without a
      path separator. */
  predicate ValidDocId(id: string): (b: bool)
    ensures b <==> |id| > 0 && forall k :: 0 <= k < |id| ==> id[k] != '/'
  {
    id != [] && '/' !in id
  }

  type DocId = id: string | ValidDocId(id) witness "post"

  /** A document of the "posts" collection: `doc.id` and `doc.data()`. */
  datatype Doc = Doc(docId: DocId, data: Record)

  /** `Object.assign({ id: doc.id }, doc.data())`: the document id under
      "id", then every data field, a data field named "id" replacing the
      document id. */
  function Merge(d: Doc): (r: Record)
    ensures r.Keys == d.data.Keys + {"id"}
    ensures forall k :: k in d.data ==> r[k] == d.data[k]
    ensures "id" !in d.data ==> r["id"] == Str(d.docId)
  {
    map["id" := Str(d.docId)] + d.data
  }

  /** `{ id: doc.id }`. */
  function IdOnly(d: Doc): (r: Record)
    ensures r.Keys == {"id"} && r["id"] == Str(d.docId)
    ensures r == Merge(Doc(d.docId, map[]))
  {
    map["id" := Str(d.docId)]
  }

  /** `querySnapshot.docs.map(doc => Object.assign({ id: doc.id }, doc.data()))`. */
  function MergeAll(docs: seq<Doc>): (posts: seq<Record>)
    ensures |posts| == |docs|
    ensures forall i :: 0 <= i < |docs| ==> posts[i] == Merge(docs[i])
  {
    seq(|docs|, i requires 0 <= i < |docs| => Merge(docs[i]))
  }

  /** `readPostsJson(onlyIds)`: one record per document, in snapshot order;
      only `{ id: doc.id }` in ids-only mode, the merged record otherwise. */
  method ReadPostsJson(snapshot: seq<Doc>, onlyIds: bool) returns (posts: seq<Record>)
    ensures |posts| == |snapshot|
    ensures onlyIds ==> forall i :: 0 <= i < |snapshot| ==> posts[i] == IdOnly(snapshot[i])
    ensures !onlyIds ==> posts == MergeAll(snapshot)
    ensures !onlyIds ==> forall i :: 0 <= i < |snapshot| ==>
              posts[i].Keys == snapshot[i].data.Keys + {"id"} &&
              posts[i]["id"] == (if "id" in snapshot[i].data then snapshot[i].data["id"] else Str(snapshot[i].docId)) &&
              forall k :: k in snapshot[i].data ==> posts[i][k] == snapshot[i].data[k]
  {
    if onlyIds {
      posts := seq(|snapshot|, i requires 0 <= i < |snapshot| => IdOnly(snapshot[i]));
    } else {
      posts := MergeAll(snapshot);
    }
  }

  /** A data field "id", if present, has a string form, so the merged
      record's id does. */
  predicate DataIdsHaveToString(snapshot: seq<Doc>)
  {
    forall i :: 0 <= i < |snapshot| ==> "id" in snapshot[i].data ==> HasToString(snapshot[i].data["id"])
  }

  lemma MergedIdsHaveToString(snapshot: seq<Doc>)
    requires DataIdsHaveToString(snapshot)
    ensures AllHaveIds(MergeAll(snapshot))
  {
    var posts := MergeAll(snapshot);
    forall i | 0 <= i < |posts| ensures HasStringId(posts[i]) {
      assert posts[i] == Merge(snapshot[i]);
    }
  }

  /** `getSortedPostsData()`: the merged records sorted by title, each
      projected to its summary. */
  method GetSortedPostsData(snapshot: seq<Doc>, cmp: Comparator) returns (summaries: seq<Record>)
    requires IsTotalPreorder(cmp)
    requires DataIdsHaveToString(snapshot)
    requires SortableTitles(MergeAll(snapshot))
    ensures AllHaveIds(MergeAll(snapshot))
    ensures |summaries| == |snapshot|
    ensures SortedByTitle(summaries, cmp)
    ensures multiset(summaries) == multiset(ProjectAll(MergeAll(snapshot)))
    ensures forall k :: 0 <= k < |summaries| ==> summaries[k].Keys == SummaryFields
  {
    var posts := ReadPostsJson(snapshot, false);
    MergedIdsHaveToString(snapshot);
    summaries := SortAndSummarize(posts, cmp);
  }

  /** `getAllPostIds()`: one route entry per document, in snapshot order,
      carrying the document id. */
  method GetAllPostIds(snapshot: seq<Doc>) returns (paths: seq<PathEntry>)
    ensures |paths| == |snapshot|
    ensures forall i :: 0 <= i < |snapshot| ==> paths[i].params.id == snapshot[i].docId
  {
    var posts := ReadPostsJson(snapshot, true);
    paths := IdsToPaths(posts);
  }

  /** Index `i` holds the first document, in snapshot order, whose
      document id is `id`. */
  ghost predicate IsFirstDoc(snapshot: seq<Doc>, id: string, i: int)
  {
    0 <= i < |snapshot| && snapshot[i].docId == id && forall j :: 0 <= j < i ==> snapshot[j].docId != id
  }

  /** `query(collectionRef, where(documentId(), "==", id))`: the documents
      whose document id equals `id` exactly, in snapshot order. */
  function SelectByDocId(snapshot: seq<Doc>, id: string): (selected: seq<Doc>)
    requires ValidDocId(id)
    ensures forall k :: 0 <= k < |selected| ==> selected[k] in snapshot && selected[k].docId == id
    ensures forall d :: d in snapshot && d.docId == id ==> d in selected
    ensures forall i :: IsFirstDoc(snapshot, id, i) ==> selected != [] && selected[0] == snapshot[i]
  {
    if snapshot == [] then []
    else
      var rest := SelectByDocId(snapshot[1..], id);
      assert forall i :: IsFirstDoc(snapshot, id, i) && i > 0 ==> IsFirstDoc(snapshot[1..], id, i - 1);
      if snapshot[0].docId == id then [snapshot[0]] + rest else rest
  }

  /** `getPostData(id)`: the merged record of the first document whose
      document id is `id`; otherwise the "Not found" sentinel. The query
      rejects an id that is not a valid document id. */
  function GetPostData(snapshot: seq<Doc>, id: string): (post: Record)
    requires ValidDocId(id)
    ensures (forall d :: d in snapshot ==> d.docId != id) ==> post == NotFound(id)
    ensures (exists d :: d in snapshot && d.docId == id) ==>
              exists d :: d in snapshot && d.docId == id && post == Merge(d)
    ensures forall i :: IsFirstDoc(snapshot, id, i) ==> post == Merge(snapshot[i])
  {
    var posts := MergeAll(SelectByDocId(snapshot, id));
    if |posts| == 0 then NotFound(id) else posts[0]
  }

  /** The found record reports the requested id unless its data carries an
      "id" field of its own, which then wins. */
  lemma FoundIdComesFromData(snapshot: seq<Doc>, id: string, i: int)
    requires IsFirstDoc(snapshot, id, i)
    ensures "id" !in snapshot[i].data ==> GetPostData(snapshot, id)["id"] == Str(id)
    ensures "id" in snapshot[i].data ==> GetPostData(snapshot, id)["id"] == snapshot[i].data["id"]
  {
  }

  /** A document whose data carries another id: the lookup by its document
      id returns a record whose id is not the requested one. */
  lemma DataIdOverridesDocId()
    ensures GetPostData([Doc("abc", map["id" := Str("xyz")])], "abc")["id"] == Str("xyz")
  {
    assert IsFirstDoc([Doc("abc", map["id" := Str("xyz")])], "abc", 0);
  }

  /** The query matches the whole document id, not a prefix of it. */
  lemma NoPrefixMatch(data: Record)
    ensures GetPostData([Doc("post-10", data)], "post-1") == NotFound("post-1")
  {
  }

  /** An empty collection gives no records and no summaries (and, since
      `GetAllPostIds` gives one entry per document, no routes), and the
      sentinel for every id the query accepts. */
  lemma EmptyCollection(id: string)
    requires ValidDocId(id)
    ensures MergeAll([]) == [] && ProjectAll(MergeAll([])) == []
    ensures GetPostData([], id) == NotFound(id)
  {
  }

  /** Every statically generated route resolves: looking up the document id
      of the `k`-th document finds the first document with that id. */
  lemma RoutesResolve(snapshot: seq<Doc>, k: int)
    requires 0 <= k < |snapshot|
    ensures exists f :: 0 <= f <= k && IsFirstDoc(snapshot, snapshot[k].docId, f) &&
              GetPostData(snapshot, snapshot[k].docId) == Merge(snapshot[f])
  {
    FirstDocExists(snapshot, snapshot[k].docId, k);
  }

  lemma {:induction false} FirstDocExists(snapshot: seq<Doc>, id: string, i: int)
    requires 0 <= i < |snapshot| && snapshot[i].docId == id
    ensures exists f :: 0 <= f <= i && IsFirstDoc(snapshot, id, f)
    decreases i
  {
    if !IsFirstDoc(snapshot, id, i) {
      var j :| 0 <= j < i && snapshot[j].docId == id;
      FirstDocExists(snapshot, id, j);
    }
  }

  /** When no document data carries an "id" field, each summary's id is its
      document id, so every link on the post list resolves. */
  lemma SummaryLinksResolve(snapshot: seq<Doc>, k: int)
    requires forall i :: 0 <= i < |snapshot| ==> "id" !in snapshot[i].data
    requires 0 <= k < |snapshot|
    ensures DataIdsHaveToString(snapshot) && AllHaveIds(MergeAll(snapshot))
    ensures ProjectAll(MergeAll(snapshot))[k]["id"] == Str(snapshot[k].docId)
    ensures exists d :: d in snapshot && d.docId == snapshot[k].docId &&
              GetPostData(snapshot, snapshot[k].docId) == Merge(d)
  {
    MergedIdsHaveToString(snapshot);
    assert MergeAll(snapshot)[k] == Merge(snapshot[k]);
    assert snapshot[k] in snapshot;
  }

  /** A data "id" field makes a summary's id differ from the document id:
      the post list links to an id that no route serves and that the
      lookup does not find. */
  lemma SummaryLinkMayNotResolve()
    ensures var snapshot := [Doc("abc", map["id" := Str("xyz"), "title" := Str("T")])];
            && DataIdsHaveToString(snapshot)
            && AllHaveIds(MergeAll(snapshot))
            && ProjectAll(MergeAll(snapshot))[0]["id"] == Str("xyz")
            && snapshot[0].docId == "abc"
            && GetPostData(snapshot, "xyz") == NotFound("xyz")
  {
    var snapshot := [Doc("abc", map["id" := Str("xyz"), "title" := Str("T")])];
    MergedIdsHaveToString(snapshot);
    assert MergeAll(snapshot)[0] == Merge(snapshot[0]);
  }
}
