# Movie recommender ingestion, modelled in Dafny

`MovieRecommender` reads a review dump line by line. A `product/productId`
line names the current product. A `review/userId` line names the current
user. A `review/score` line records one rating for the current user and
product. Each external identifier is interned into a bidirectional map
(`HashBiMap<String, Integer>`): an identifier not yet seen gets the next
index, starting at 1. Each rating is appended to a cache file as
`userIndex,productIndex,score` and a newline. The object also counts the
cached reviews and the distinct products and users, memoising each count in
a field. It translates the item indices that its collaborative-filtering
engine recommends back into product identifiers. The engine itself is a
library and is not modelled.

The project has five modules:

- `Wrappers` (`wrappers.dfy`): `Option`, which stands for Java's `null`.
- `Records` (`records.dfy`): the cache record layout, decimal text, and
  reading the cache back line by line. The reader treats `\n`, `\r` and
  `\r\n` as line terminators, and a last line without a terminator still
  counts as a line.
- `Interning` (`interning.dfy`): interning into dense indices. `Dense` says
  distinct identifiers have distinct indices and the indices in use are
  exactly `1..size`. `IsInverse` says the inverse view matches the forward
  map. The module also gives first-seen numbering.
- `Ingestion` (`ingestion.dfy`): the line state machine as a pure
  specification. `Step` handles one line and `Run` handles a sequence of
  lines. A `State` holds both maps, the current product and user indices,
  and the ratings written so far.
- `Recommender` (`recommender.dfy`): the objects. `IdMap` is the
  bidirectional map, updated in place. `MovieRecommender` has the cache text,
  the memo fields and the ingestion loop. Its methods are proved against
  `Run` and the `Records` functions.

The cache file becomes a `string` field that is only ever appended to. A
ghost sequence of ratings runs beside it, with the invariant
`cache == Serialize(ratings)`. The input is the sequence of lines the line
iterator yields, so no line contains `\n` or `\r`.

A matching line shorter than its field offset makes `substring` throw. The
offsets are 19 for products, 15 for users and 14 for scores. The model does
not treat a short line as a precondition. `Run` stops at the first such
line, and `ReadDataAndCreateHash` returns `false`. Everything done before
that line stays done, as it would after the exception: the maps are updated
and the cache is written. The constructor is modelled by
`MovieRecommender.Open`, which returns `None` when ingestion throws.

The collaborative-filtering engine is Apache Mahout's
(`MovieRecommender.java:47-50,130`) and is not modelled. This model covers
the ingestion and identifier bookkeeping that the class implements itself.
Indices start at 1, because an unseen identifier gets `size() + 1`.

## Model

| member | source | states |
|---|---|---|
| `Records.RecordLine` | src/test/java/nearsoft/academy/bigdata/recommendation/MovieRecommender.java:81-87 | the text `cacheToFile` appends for a product index, a user index and a score: its first comma ends the user's decimal text, the second ends the product's, and the score follows unchanged, commas included |
| `Records.Serialize` | src/test/java/nearsoft/academy/bigdata/recommendation/MovieRecommender.java:88 | the cache after a sequence of ratings: empty exactly when there are no ratings, and otherwise ending in the newline of the last record |
| `Records.Decimal` | src/test/java/nearsoft/academy/bigdata/recommendation/MovieRecommender.java:83-85 | the decimal text of a non-negative index: only digits, at least one, and no leading zero except for 0 itself |
| `Records.DecimalRoundTrip` | src/test/java/nearsoft/academy/bigdata/recommendation/MovieRecommender.java:83-85 | reading the decimal text back gives the index |
| `Records.RecordRoundTrip` | src/test/java/nearsoft/academy/bigdata/recommendation/MovieRecommender.java:81-89 | a record reads back as user digits, a comma, product digits, a comma, the score and a newline; for every rating and every score text it yields exactly that rating, so the user comes before the product |
| `Records.SerializeAppend` | src/test/java/nearsoft/academy/bigdata/recommendation/MovieRecommender.java:88 | appending a record to the cache extends the cache text of the earlier ratings by exactly that record |
| `Records.ReadLines` | src/test/java/nearsoft/academy/bigdata/recommendation/MovieRecommender.java:73-77 | the lines a line iterator yields never contain a line terminator |
| `Records.ReadRecordLine` | src/test/java/nearsoft/academy/bigdata/recommendation/MovieRecommender.java:119 | a record whose score holds no line break reads back as one line, the record without its newline, followed by the lines of whatever comes after it |
| `Records.ReadBackSerialized` | src/test/java/nearsoft/academy/bigdata/recommendation/MovieRecommender.java:71-80 | reading the cache back yields exactly one line per rating, in order, each the record's text; so the number of lines equals the number of ratings |
| `Interning.Interned` | src/test/java/nearsoft/academy/bigdata/recommendation/MovieRecommender.java:103-106 | one lookup-or-insert: the keys grow by exactly the identifier, and every earlier entry keeps its index |
| `Interning.InternKeepsDense` | src/test/java/nearsoft/academy/bigdata/recommendation/MovieRecommender.java:103-106 | interning keeps the map dense; an identifier already present leaves the map unchanged, and a new one gets index size+1 and grows the map by one; existing entries never change |
| `Interning.InternKeepsInverse` | src/test/java/nearsoft/academy/bigdata/recommendation/MovieRecommender.java:31-32 | the inverse view stays the exact inverse after interning; a new identifier adds the single entry size+1 to it |
| `Interning.InverseTotal` | src/test/java/nearsoft/academy/bigdata/recommendation/MovieRecommender.java:136 | every index in 1..size resolves through the inverse view to the identifier that holds it |
| `Interning.InverseKeys` | src/test/java/nearsoft/academy/bigdata/recommendation/MovieRecommender.java:136 | the inverse view is defined on exactly the indices 1..size |
| `Interning.InverseInjective` | src/test/java/nearsoft/academy/bigdata/recommendation/MovieRecommender.java:31-32 | distinct indices resolve to distinct identifiers |
| `Interning.InternAllKeepsDense` | src/test/java/nearsoft/academy/bigdata/recommendation/MovieRecommender.java:103-106 | interning a sequence of identifiers keeps the map dense, keeps every earlier entry, and leaves every identifier of the sequence present |
| `Interning.InternAllNumbering` | src/test/java/nearsoft/academy/bigdata/recommendation/MovieRecommender.java:103-106 | interning into a first-seen numbering gives the numbering of the sequence extended by the new identifiers in the order they appear |
| `Interning.NumberingShape` | src/test/java/nearsoft/academy/bigdata/recommendation/MovieRecommender.java:104 | the numbering of distinct identifiers gives the i-th one the index i+1 and holds nothing else |
| `Interning.FirstSeenOrder` | src/test/java/nearsoft/academy/bigdata/recommendation/MovieRecommender.java:103-106 | from an empty map, the distinct identifiers get the indices 1, 2, ... in the order they first appear, and the map holds exactly the identifiers seen |
| `Ingestion.Malformed` | src/test/java/nearsoft/academy/bigdata/recommendation/MovieRecommender.java:100-118 | a line on which `substring` throws: it starts with a prefix but is shorter than that prefix's offset, so it is between 12 and 18 characters long |
| `Ingestion.Step` | src/test/java/nearsoft/academy/bigdata/recommendation/MovieRecommender.java:96-120 | the loop body for one accepted line: both maps only gain identifiers |
| `Ingestion.Run` | src/test/java/nearsoft/academy/bigdata/recommendation/MovieRecommender.java:95-121 | the loop over the lines, stopping at the first line on which `substring` throws: both maps only gain identifiers |
| `Ingestion.PrefixesExclusive` | src/test/java/nearsoft/academy/bigdata/recommendation/MovieRecommender.java:100-117 | no line starts with two of the three prefixes, so at most one of the three branches acts on any line |
| `Ingestion.Accepted` | src/test/java/nearsoft/academy/bigdata/recommendation/MovieRecommender.java:95-121 | the lines handled before the first line whose `substring` throws: a prefix of the input, all well-formed, followed by a malformed line unless it is the whole input |
| `Ingestion.IgnoredLine` | src/test/java/nearsoft/academy/bigdata/recommendation/MovieRecommender.java:97-99 | an empty line, or a line with none of the three prefixes, changes neither map, neither current index and no rating |
| `Ingestion.ProductLineSetsCurrent` | src/test/java/nearsoft/academy/bigdata/recommendation/MovieRecommender.java:100-107 | a product line interns the text after the first 19 characters and makes its index the current product index; the ratings and the current user index are unchanged |
| `Ingestion.UserLineSetsCurrent` | src/test/java/nearsoft/academy/bigdata/recommendation/MovieRecommender.java:108-116 | a user line interns the text after the first 15 characters and makes its index the current user index; the ratings and the current product index are unchanged |
| `Ingestion.ScoreLineEmits` | src/test/java/nearsoft/academy/bigdata/recommendation/MovieRecommender.java:117-120 | a score line appends exactly one rating: the current user index, the current product index and the text after the first 14 characters; nothing else changes |
| `Ingestion.StepEmits` | src/test/java/nearsoft/academy/bigdata/recommendation/MovieRecommender.java:117-120 | one line appends a rating if and only if it is a score line |
| `Ingestion.StepConsistent` | src/test/java/nearsoft/academy/bigdata/recommendation/MovieRecommender.java:96-120 | one line keeps both maps dense and every recorded index either 0 or in use |
| `Ingestion.RunConsistent` | src/test/java/nearsoft/academy/bigdata/recommendation/MovieRecommender.java:95-121 | a whole run keeps both maps dense and every recorded index either 0 or in use |
| `Ingestion.RunInterns` | src/test/java/nearsoft/academy/bigdata/recommendation/MovieRecommender.java:100-116 | after a run, the product map is the old one with the product identifiers interned in input order, and the user map likewise; user lines never touch the product map, and product lines never touch the user map |
| `Ingestion.RunAppendOnly` | src/test/java/nearsoft/academy/bigdata/recommendation/MovieRecommender.java:88 | a run keeps the ratings that were already written, as a prefix |
| `Ingestion.RunEmitsOnePerScoreLine` | src/test/java/nearsoft/academy/bigdata/recommendation/MovieRecommender.java:117-120 | a run appends exactly one rating per accepted score line, in input order, each carrying that line's score text |
| `Ingestion.RatingsCarryCurrentProduct` | src/test/java/nearsoft/academy/bigdata/recommendation/MovieRecommender.java:92-120 | while no product line is read, the current product index stays as it was and every rating written carries it (0 at the start of ingestion) |
| `Ingestion.RatingsCarryCurrentUser` | src/test/java/nearsoft/academy/bigdata/recommendation/MovieRecommender.java:93-120 | while no user line is read, the current user index stays as it was and every rating written carries it (0 at the start of ingestion) |
| `Ingestion.ProductsNumberedFirstSeen` | src/test/java/nearsoft/academy/bigdata/recommendation/MovieRecommender.java:103-106 | after ingestion from empty maps, the distinct product identifiers are numbered 1, 2, ... in first-seen order |
| `Ingestion.UsersNumberedFirstSeen` | src/test/java/nearsoft/academy/bigdata/recommendation/MovieRecommender.java:111-114 | after ingestion from empty maps, the distinct user identifiers are numbered 1, 2, ... in first-seen order |
| `Recommender.IdMap.constructor` | src/test/java/nearsoft/academy/bigdata/recommendation/MovieRecommender.java:31-32 | a new bidirectional map is empty and dense |
| `Recommender.IdMap.Intern` | src/test/java/nearsoft/academy/bigdata/recommendation/MovieRecommender.java:103-106 | look up, or insert with size+1 and update the inverse view; the map stays dense with an exact inverse, and the returned index is the one now held for the identifier |
| `Recommender.IdMap.Name` | src/test/java/nearsoft/academy/bigdata/recommendation/MovieRecommender.java:136 | the inverse lookup succeeds exactly for 1..size, and the identifier it returns maps back to the index; otherwise it gives `null` |
| `Recommender.IdMap.NamesOf` | src/test/java/nearsoft/academy/bigdata/recommendation/MovieRecommender.java:134-138 | the loop that translates recommended items yields one entry per item, in order, each the inverse lookup of that item |
| `Recommender.MovieRecommender.Empty` | src/test/java/nearsoft/academy/bigdata/recommendation/MovieRecommender.java:27-40 | the field initial values: empty maps, an emptied cache, memo fields 0, no recommendation list |
| `Recommender.MovieRecommender.Open` | src/test/java/nearsoft/academy/bigdata/recommendation/MovieRecommender.java:36-46 | the constructor yields an object exactly when ingestion completes (building the engine afterwards is assumed to succeed); its maps and ratings are those of `Run` from empty maps |
| `Recommender.MovieRecommender.CacheToFile` | src/test/java/nearsoft/academy/bigdata/recommendation/MovieRecommender.java:81-89 | the cache grows by user, a comma, product, a comma and the score, and by nothing else |
| `Recommender.MovieRecommender.RecordScore` | src/test/java/nearsoft/academy/bigdata/recommendation/MovieRecommender.java:118-119 | the score branch's cache write appends one rating to the cache and keeps the cache equal to the serialisation of the ratings |
| `Recommender.MovieRecommender.ProductLine` | src/test/java/nearsoft/academy/bigdata/recommendation/MovieRecommender.java:100-107 | the product branch on a line long enough for `substring(19)`: the map and the current product index become what `Step` gives, and the object invariant holds |
| `Recommender.MovieRecommender.UserLine` | src/test/java/nearsoft/academy/bigdata/recommendation/MovieRecommender.java:108-116 | the user branch on a line long enough for `substring(15)`: the map and the current user index become what `Step` gives, and the object invariant holds |
| `Recommender.MovieRecommender.ScoreLine` | src/test/java/nearsoft/academy/bigdata/recommendation/MovieRecommender.java:117-120 | the score branch on a line long enough for `substring(14)`: the cache and ratings become what `Step` gives, and the object invariant holds |
| `Recommender.MovieRecommender.ProcessLine` | src/test/java/nearsoft/academy/bigdata/recommendation/MovieRecommender.java:96-120 | one loop iteration does exactly what `Step` says to the maps, the current indices and the ratings; a malformed line fails and changes nothing |
| `Recommender.MovieRecommender.ReadDataAndCreateHash` | src/test/java/nearsoft/academy/bigdata/recommendation/MovieRecommender.java:90-126 | ingestion leaves the maps and ratings as `Run` gives them from indices 0; it succeeds exactly when no line is malformed; it keeps the object invariant and changes no memo field |
| `Recommender.MovieRecommender.CountReviews` | src/test/java/nearsoft/academy/bigdata/recommendation/MovieRecommender.java:71-80 | the count is the number of lines read from the cache, which under the object invariant is the number of ratings |
| `Recommender.MovieRecommender.GetTotalReviews` | src/test/java/nearsoft/academy/bigdata/recommendation/MovieRecommender.java:54-58 | while the memo is 0 it is recomputed as the number of ratings; otherwise the memo is returned unchanged; a current memo stays current |
| `Recommender.MovieRecommender.GetTotalProducts` | src/test/java/nearsoft/academy/bigdata/recommendation/MovieRecommender.java:60-64 | while the memo is 0 it is set to the number of distinct products; otherwise the memo is returned unchanged |
| `Recommender.MovieRecommender.GetTotalUsers` | src/test/java/nearsoft/academy/bigdata/recommendation/MovieRecommender.java:66-70 | while the memo is 0 it is set to the number of distinct users; otherwise the memo is returned unchanged |
| `Recommender.MovieRecommender.GetRecommendationsForUser` | src/test/java/nearsoft/academy/bigdata/recommendation/MovieRecommender.java:128-139 | the engine is asked for 3 items for the user's index, and a failed call keeps the previous list; the result translates each item of the list through the inverse product view, in order |

## Left out

- The collaborative-filtering engine (`FileDataModel`, `PearsonCorrelationSimilarity`, `ThresholdUserNeighborhood`, `GenericUserBasedRecommender`, lines 47-50 and 130) is Apache Mahout code, not this repository's, and it computes in floating point. `GetRecommendationsForUser` takes the engine's `recommend` as a function parameter. `None` stands for a thrown `TasteException`.
- File I/O is left out: GZIP decoding, the UTF-8 reader, the input's line iterator (line 91), and the cache file's delete, create and append. The input is given as the sequence of lines that iterator yields. The cache's line iterator in `countReviews` (lines 73-77) is modelled, by `Records.ReadLines` over the cache text. The cache is an in-memory string. Because the cache file is one shared file in the user's home directory, two instances would interfere; the model gives each object its own cache.
- Console output (`System.out.println`, `printStackTrace`) is left out.
- Recommender.MovieRecommender.GetRecommendationsForUser: requires the user identifier to be present. An unknown user unboxes `null` and ends in a `NullPointerException` that is not caught. It also requires a usable list: if the first call to the engine throws, `recommendations` is still `null` and the loop would throw.
- Recommender.IdMap.NamesOf: item identifiers are `long` values that are cast to `int`. The model takes them as unbounded integers, because every item index comes from the cache and fits an `int`.
- Recommender.IdMap.Intern: indices are unbounded naturals, so `size() + 1` overflowing after 2^31 - 1 identifiers is not modelled. The same holds for the review counter and the memo fields.
- Recommender.MovieRecommender.ReadDataAndCreateHash: requires that no input line contains `\n` or `\r`. This is what the line iterator guarantees for the lines it yields.
- The memo fields go stale if `readDataAndCreateHash` is called again after a total was computed. The model states the memo methods against the old memo value rather than claiming they are always current.
- Ingestion.Malformed: offsets and the too-short test count Unicode scalar values, while Java's `length()` and `substring` count UTF-16 code units. The two differ when a character outside the Basic Multilingual Plane falls within the first 19, 15 or 14 positions of a matching line. On such a line the model may reject a line Java accepts, or cut the identifier at a different place.
- Recommender.MovieRecommender.Open: building the engine at lines 47-50 is assumed to succeed, also on an empty cache (no score line was read). The Java constructor declares `TasteException` and `IOException` and may throw there, for instance when the cache file was deleted at line 38 and never written again. The model then still returns an object.
