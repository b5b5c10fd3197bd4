# Post data layer of the nextjs-blog site, in Dafny

The blog reads its posts through one of two interchangeable stores, each
offering the same three operations to the static-site build:

- `getSortedPostsData` sorts the post records by title and projects each to a
  summary with exactly the fields `id` (as a string), `title`, `date` and
  `author`;
- `getAllPostIds` wraps every post id as `{ params: { id } }` for the
  generation of the per-post routes;
- `getPostData(id)` returns the first record whose id matches, or the
  "Not found" sentinel `{ id, title: "Not found", date: "", contentHtml: "Not found" }`.

The local-file store (`lib/posts-json.js`) compares and reports ids in their
`toString()` form. The Firestore store (`lib/posts-firebase.js`) builds each
record as `Object.assign({ id: doc.id }, doc.data())`, so a data field named
`id` replaces the document id; its route list and its lookup use the document
id alone.

Files:

- `values.dfy` (module `Values`): field values (`Undefined`, `Null`, booleans,
  integers of magnitude at most 2^53, strings), records as `map<string, Value>`, and `toString`, with the
  round trip of the decimal form of numeric ids.
- `post_shape.dfy` (module `PostShape`): what both stores share. It holds the
  abstract title comparator, the in-place title sort (an insertion sort on an
  array, proved sorted and a permutation), the summary projection, the route
  entries and the sentinel.
- `posts_json.dfy` (module `PostsJson`): the local-file store over the parsed
  record sequence.
- `posts_firebase.dfy` (module `PostsFirebase`): the Firestore store over a
  snapshot, a sequence of documents (document id, data).

Where the code and its surrounding descriptions differ, the model follows the
code. Both stores sort by title, although `pages/index.js:14` speaks of
sorting by date. In the Firestore store, a post found by id reports the
data's own `id` when it has one, so the found post's id need not equal the
requested id.

## Model

| member | source | states |
|---|---|---|
| Values.IntToDecimal | nextjs-blog/lib/posts-json.js:32 | `toString` of a numeric id is non-empty, starts with "-" exactly when the number is negative, and is otherwise decimal digits |
| Values.ToStr | nextjs-blog/lib/posts-json.js:32 | `toString` of a string id is the string itself, of a boolean "true" or "false", of a number its decimal form (with "-" exactly for negatives); undefined and null have none |
| Values.NatToDecimal | nextjs-blog/lib/posts-json.js:32 | the digits `toString` prints for a non-negative id (at most 2^53, where they are exact) are a non-empty run of decimal digits without a leading zero; 0 prints as "0" alone |
| Values.NatToDecimalRoundTrip | nextjs-blog/lib/posts-json.js:32 | reading those digits back gives the number |
| Values.NumberToStrRoundTrip | nextjs-blog/lib/posts-json.js:32 | `toString` of an integer id of magnitude at most 2^53 is an optional minus sign and digits that read back as that integer |
| Values.NumberToStrInjective | nextjs-blog/lib/posts-json.js:65 | two numeric ids (of magnitude at most 2^53) have the same string form only when they are equal |
| PostShape.Project | nextjs-blog/lib/posts-json.js:29-39 | a summary has exactly the keys id, title, date, author; id is the string form of the record's id; the other three are the record's fields (undefined when missing); contentHtml and every other field are dropped; the title is kept |
| PostShape.ProjectAll | nextjs-blog/lib/posts-json.js:29-40 | one summary per record, in the same order, each the projection of the record at that position |
| PostShape.ProjectAllPermutation | nextjs-blog/lib/posts-json.js:24-40 | projecting a permutation of the records gives a permutation of their summaries |
| PostShape.ProjectAllSorted | nextjs-blog/lib/posts-json.js:24-40 | records in title order project to summaries in title order |
| PostShape.SortByTitle | nextjs-blog/lib/posts-json.js:24-27 | after the in-place sort the array is non-decreasing by title under the comparator and holds the same records (as a multiset) |
| PostShape.InsertAt | nextjs-blog/lib/posts-json.js:24-27 | one insertion step of the sort: with the first i records in title order, afterwards the first i + 1 are, the array holds the same records, and the records after i are untouched |
| PostShape.SortAndSummarize | nextjs-blog/lib/posts-json.js:22-40 | the summaries are as many as the records, non-decreasing by title, a permutation of the records' projections, and each has exactly the four summary keys |
| PostShape.NotFound | nextjs-blog/lib/posts-json.js:70-75 | the sentinel has exactly the keys id, title, date, contentHtml: id is the request, title "Not found", date "", contentHtml "Not found" |
| PostShape.IdsToPaths | nextjs-blog/lib/posts-json.js:48-55 | one `{ params: { id } }` per record, in input order, id being the string form of the record's id |
| PostsJson.GetSortedPostsData | nextjs-blog/lib/posts-json.js:20-41 | file store listing: same length as the file, sorted by title, a permutation of the projected records, four keys per summary |
| PostsJson.GetAllPostIds | nextjs-blog/lib/posts-json.js:44-56 | one route entry per record, in file order (not sorted), carrying the string form of the record's id |
| PostsJson.IdMatches | nextjs-blog/lib/posts-json.js:65 | a string id matches exactly itself, a numeric id its decimal form, a boolean id "true" or "false"; a record without an id never matches (in the code such a record makes the filter throw; `GetPostData` excludes it by `requires AllHaveIds`) |
| PostsJson.FilterById | nextjs-blog/lib/posts-json.js:63-66 | the selected records are exactly the stored records whose string id equals the request, and the first of them is the first match in file order |
| PostsJson.GetPostData | nextjs-blog/lib/posts-json.js:59-80 | no match gives the sentinel for the requested id; a match gives a stored record, namely the first match in file order, unchanged; either way the result's string id equals the request |
| PostsJson.RoutesResolve | nextjs-blog/lib/posts-json.js:44-79 | looking up the id of any generated route returns the first stored record with that id, never the sentinel by absence |
| PostsJson.SummaryLinksResolve | nextjs-blog/lib/posts-json.js:29-79 | the id a summary carries is its record's string id, and looking it up returns a stored record |
| PostsJson.NumericAndStringIdsMatch | nextjs-blog/lib/posts-json.js:63-66 | a record with numeric id n (magnitude at most 2^53) and one with the string of n's decimal form are both found by the request for that decimal form |
| PostsJson.DuplicateIdsFirstWins | nextjs-blog/lib/posts-json.js:76-79 | with two records sharing an id the lookup returns the earlier one |
| PostsJson.SentinelIsAmbiguous | nextjs-blog/lib/posts-json.js:68-79 | a stored record equal to the sentinel is returned exactly as an absent id is, so the result cannot tell the two apart |
| PostsJson.ExampleListing | nextjs-blog/lib/posts-json.js:20-41 | for the file with posts (1, "B") and (2, "A"), any sorted permutation of the summaries is post 2's summary then post 1's, ids as strings |
| PostsJson.ExampleNotFound | nextjs-blog/lib/posts-json.js:68-75 | for that file the request "99" returns the sentinel with id "99" |
| PostsFirebase.Merge | nextjs-blog/lib/posts-firebase.js:14 | the record has the data's keys plus id; every data field is kept as is; id is the document id only when the data has no id field |
| PostsFirebase.IdOnly | nextjs-blog/lib/posts-firebase.js:12 | the ids-only record has the single key id, holding the document id, and is what merging a document with empty data gives |
| PostsFirebase.MergeAll | nextjs-blog/lib/posts-firebase.js:70 | one merged record per document, in snapshot order |
| PostsFirebase.ReadPostsJson | nextjs-blog/lib/posts-firebase.js:7-18 | one record per document in snapshot order: only `{ id: docId }` in ids-only mode, otherwise the document id overlaid by the data fields, a data id winning |
| PostsFirebase.GetSortedPostsData | nextjs-blog/lib/posts-firebase.js:21-41 | Firestore listing: same length as the snapshot, sorted by title, a permutation of the projected merged records, four keys per summary |
| PostsFirebase.GetAllPostIds | nextjs-blog/lib/posts-firebase.js:44-56 | one route entry per document, in snapshot order, carrying the document id whatever the data holds |
| PostsFirebase.ValidDocId | nextjs-blog/lib/posts-firebase.js:61-68 | an id the `documentId()` query accepts is non-empty and has no "/" at any position |
| PostsFirebase.SelectByDocId | nextjs-blog/lib/posts-firebase.js:60-69 | for a request that is a valid document id (non-empty, no "/"), the query selects exactly the documents whose document id equals it, the first of them being the first such document |
| PostsFirebase.GetPostData | nextjs-blog/lib/posts-firebase.js:59-85 | for a valid document id: no such document gives the sentinel; otherwise the merged record of the first document with that document id |
| PostsFirebase.FoundIdComesFromData | nextjs-blog/lib/posts-firebase.js:70-83 | the found record's id is the request when the data has no id field, and the data's id otherwise |
| PostsFirebase.DataIdOverridesDocId | nextjs-blog/lib/posts-firebase.js:70-83 | a document "abc" whose data has id "xyz" is found by "abc" and reports id "xyz" |
| PostsFirebase.NoPrefixMatch | nextjs-blog/lib/posts-firebase.js:61-68 | the request "post-1" does not select document "post-10": the match is on the whole id |
| PostsFirebase.EmptyCollection | nextjs-blog/lib/posts-firebase.js:9-17 | an empty collection gives no records, no summaries and the sentinel for every valid document id |
| PostsFirebase.RoutesResolve | nextjs-blog/lib/posts-firebase.js:44-85 | looking up the document id of any generated route returns the merged record of the first document with that id |
| PostsFirebase.SummaryLinksResolve | nextjs-blog/lib/posts-firebase.js:12-40 | when no data has an id field, each summary's id is its document id and looking it up finds a document |
| PostsFirebase.SummaryLinkMayNotResolve | nextjs-blog/lib/posts-firebase.js:12-14 | a data id "xyz" on document "abc" puts "xyz" in the summary while the route is "abc", and looking up "xyz" gives the sentinel |

## Left out

- Reading and parsing `data/posts.json` (`lib/posts-json.js:10-17`) is file I/O and a library parser: the parsed records are a parameter. The system `Error` that `fs.readFileSync` throws (for example for a missing file, ENOENT) and the `SyntaxError` that `JSON.parse` throws are not modelled.
- The Firestore client (`collection`, `getDocs`, `query`, `where`, `documentId`) and `async`/`await` are a network database client: the snapshot is a parameter, and the id query is a filter on document ids that keeps snapshot order. Network failures are not modelled.
- `localeCompare` is ICU- and locale-dependent collation: titles are compared by an abstract comparator assumed to be a total preorder. The order of posts with tied titles is not pinned, so the listing is specified as "sorted and a permutation", and repeated listings are equal only up to that order.
- Numbers are integers of magnitude at most 2^53 (`Values.SafeInt`), for which `toString` prints the exact decimal digits. Larger numbers are not modelled: `toString` prints their shortest round-trip digits padded with zeros (2^60 gives "1152921504606847000"), so their string form is not their exact digits. Fractions, the exponent form used from 1e21 on, and arrays or objects as field values are not modelled either.
- Values.NatToDecimal: gives the exact digits of every natural number, but it stands for `toString` only on ids of magnitude at most 2^53, the only numbers a `Value` holds.
- Values.NatToDecimalRoundTrip: holds for every natural number, but it describes `toString` only up to 2^53.
- Values.NumberToStrRoundTrip: is stated for ids of magnitude at most 2^53 only; above that, `toString` does not read back as the number.
- PostsFirebase.GetPostData: `where(documentId(), "==", id)` throws an invalid-argument error when `id` is empty or contains "/". The model makes a valid document id a precondition (`ValidDocId`) of `GetPostData`, `SelectByDocId` and `EmptyCollection` instead of modelling that error. Document ids in a snapshot are always valid (`DocId`), so every generated route satisfies it.
- The `TypeError`s that `toString` on a missing or null id and `localeCompare` on a non-string title throw are preconditions, not error results. Such an error aborts the build step, and the code does not handle it.
- PostShape.SortByTitle: requires every title to be a string once there are two or more records. The engine calls `localeCompare` only on the left operand's title and coerces the right one. Which records end up on the left is engine-specific, so that mixed case is not modelled.
- `pages/index.js`, `pages/posts/[id].js` and `components/date.js` are React rendering and `date-fns` formatting: not part of this model. `lib/firebase.js` (the database handle) is not part of this model.
