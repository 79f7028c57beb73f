# DSA learning platform: catalog toggle and topic filtering

This project models the two pieces of logic in the DSA learning platform that are more than glue.

- **The server's in-memory catalog** (`server/routes/dsaRoutes.js`). It is a module-level list of topics. Each topic has an id, a name, a level, stored `completed` and `total` numbers, and an ordered list of problems. Each problem has an id and an `isCompleted` flag. The server has three routes over this list:
  - list all topics;
  - get one topic by id, or answer 404 "Topic not found";
  - toggle one problem. The route finds the topic, then looks for the problem inside that topic only. It flips the problem's flag in place and recounts that topic's `completed` from its problems.

  In module `DsaRoutes`, class `Catalog` holds the list as a `seq<Topic>` of records. `Catalog.Toggle` is proved against the pure function `ToggleProblem`, and the lemmas state what a toggle does to that function's result. Route ids come in already parsed: `Some(n)` stands for a number, and `None` for the NaN that `parseInt` returns on a non-number, which matches no id.
- **The client's topic sheet** (`client/src/pages/DSASheet.jsx`). The page fetches topics and validates their shape. A topic is kept only if it is truthy and has a string `name`, a string `level`, numeric `completed` and `total`, and an array `problems`. A response that is not an array is rejected. The page then narrows the list with `filterTopics`: a case-insensitive search of the name for the trimmed query, combined with a difficulty filter where `all` matches every topic. Module `DsaSheet` models the response as a `Json` value. Modules `JsStrings` and `JsArrays` model the JavaScript string and array operations these rely on.

Completion is one global flag per problem, shared by all users, exactly as the server code stores it. The stored `completed` is not an invariant of the catalog. In the seed data, Arrays claims 3 completed problems but has only one problem, and no `total` equals its topic's number of problems. The count is guaranteed only after a toggle on that topic. In the seed it is wrong for Arrays alone (`SeedCountsDisagree`, `ToggleFlipsFirstMatch`).

The toggle route is addressed by topic id and problem id, and it changes the one global flag.

## Model

| member | source | states |
|---|---|---|
| `DsaRoutes.FindTopic` | server/routes/dsaRoutes.js:134 | `find` by topic id gives the first topic with that id, and none exactly when no topic has it (or the id is NaN) |
| `DsaRoutes.FindProblem` | server/routes/dsaRoutes.js:148 | `find` by problem id inside one topic gives the first problem with that id, and none exactly when that topic has no such problem |
| `DsaRoutes.FindTopicIsFirst` | server/routes/dsaRoutes.js:143 | the first topic carrying an id is the one the lookup returns |
| `DsaRoutes.FindProblemIsFirst` | server/routes/dsaRoutes.js:148 | the first problem carrying an id is the one the lookup returns |
| `DsaRoutes.CountCompleted` | server/routes/dsaRoutes.js:154 | `problems.filter(p => p.isCompleted).length` is never more than the number of problems; its exact range is `CountCompletedBounds` |
| `DsaRoutes.CountCompletedBounds` | server/routes/dsaRoutes.js:154 | the recounted `completed` lies between 0 and the number of problems; it is 0 iff no problem is completed and the full length iff all are |
| `DsaRoutes.CountAfterFlip` | server/routes/dsaRoutes.js:153-154 | negating one problem's flag moves the completed count by exactly one, down if it was completed and up otherwise |
| `DsaRoutes.Flip` | server/routes/dsaRoutes.js:153 | `problem.isCompleted = !problem.isCompleted` negates the flag and leaves every other field of the problem as it was |
| `DsaRoutes.ToggleProblem` | server/routes/dsaRoutes.js:142-157 | a toggle answers "Topic not found" iff no topic has the id; it answers "Problem not found" iff the topic exists but has no such problem, even if another topic does; both 404s leave the catalog unchanged; a success answers "Problem status updated" |
| `DsaRoutes.ToggleFlipsFirstMatch` | server/routes/dsaRoutes.js:148-156 | a successful toggle answers with the flipped first matching problem of the first matching topic; it negates that problem's flag and sets the topic's `completed` to the count of its completed problems, within 0..number of problems, whatever the stored value was |
| `DsaRoutes.ToggleChangesNothingElse` | server/routes/dsaRoutes.js:153-154 | a toggle leaves other topics, other problems, the topic's id, name, level, total and problem order, and the problem's other fields untouched |
| `DsaRoutes.ToggleMovesCountByOne` | server/routes/dsaRoutes.js:153-154 | when the stored count was right, a toggle moves it by exactly one in the direction of the flip |
| `DsaRoutes.ToggleProblemAt` | server/routes/dsaRoutes.js:142-157 | a toggle that finds topic `i` and problem `j` answers with that problem flipped and leaves exactly the catalog with that flag negated and that topic recounted |
| `DsaRoutes.ToggleTwiceRestores` | server/routes/dsaRoutes.js:153-154 | two toggles with the same ids both succeed, the first answering the flipped problem; the second answers the original problem and restores every flag; only the topic's count stays recounted, so a topic with a correct count comes back identical |
| `DsaRoutes.SeedCountsDisagree` | server/routes/dsaRoutes.js:7-125 | the seed's Arrays topic claims 3 completed problems with one problem, while every other seed topic's stored count is right; no seed topic's `total` equals its number of problems; the first toggle of Two Sum sets Arrays' count to 0 |
| `DsaRoutes.Catalog.constructor` | server/routes/dsaRoutes.js:7-125 | the catalog starts as the seed topics |
| `DsaRoutes.Catalog.ListTopics` | server/routes/dsaRoutes.js:128-130 | listing returns every topic of the catalog, in order, as stored |
| `DsaRoutes.Catalog.GetTopic` | server/routes/dsaRoutes.js:133-139 | get-by-id returns the first topic with that id when there is one, and a 404 "Topic not found" otherwise |
| `DsaRoutes.Catalog.Toggle` | server/routes/dsaRoutes.js:142-157 | the in-place toggle answers and leaves the catalog exactly as `ToggleProblem` describes |
| `JsStrings.ToLower` | client/src/pages/DSASheet.jsx:111 | `toLowerCase` keeps the length and lower-cases each character, mapping A-Z to a-z and leaving every other character alone |
| `JsStrings.ToLowerIdempotent` | client/src/pages/DSASheet.jsx:111 | lower-casing twice is lower-casing once |
| `JsStrings.TrimStart` | client/src/pages/DSASheet.jsx:110 | the result is the suffix that starts at the first non-whitespace character; everything dropped is whitespace |
| `JsStrings.TrimEnd` | client/src/pages/DSASheet.jsx:110 | the result is the prefix that ends at the last non-whitespace character; everything dropped is whitespace |
| `JsStrings.Trim` | client/src/pages/DSASheet.jsx:110-111 | `trim()` never lengthens the string, and a non-empty result neither starts nor ends with whitespace; when it is empty is `TrimEmptyIff` |
| `JsStrings.TrimEmptyIff` | client/src/pages/DSASheet.jsx:110 | a string trims to empty exactly when it is all whitespace |
| `JsStrings.Includes` | client/src/pages/DSASheet.jsx:111 | `includes` holds for the empty needle and only for a needle no longer than the haystack; its meaning is `IncludesIff` |
| `JsStrings.IncludesIff` | client/src/pages/DSASheet.jsx:111 | `includes` holds exactly when the needle occurs at some position of the haystack |
| `JsArrays.Filter` | client/src/pages/DSASheet.jsx:29 | `filter` returns only elements of its input that satisfy the callback, includes every element that does, and never grows the list |
| `JsArrays.FilterMultiset` | client/src/pages/DSASheet.jsx:29 | `filter` keeps one copy of a value for each position where it occurs and satisfies the callback, and no copy of a value that does not |
| `JsArrays.FilterIsSubsequence` | client/src/pages/DSASheet.jsx:104 | what `filter` returns is a subsequence of its input, in the original order |
| `JsArrays.FilterIdempotent` | client/src/pages/DSASheet.jsx:104 | filtering twice with the same callback equals filtering once |
| `JsArrays.FilterCongruent` | client/src/pages/DSASheet.jsx:104 | two callbacks that agree on every element produce the same filtered list |
| `DsaSheet.ComplaintsEmptyIff` | client/src/pages/DSASheet.jsx:43-57 | the `missingFields` list is empty exactly when every required field has its required type |
| `DsaSheet.ComplaintsEmptyIffShape` | client/src/pages/DSASheet.jsx:35-52 | the five-entry `requiredFields` check amounts to: string name and level, number completed and total, array problems |
| `DsaSheet.MissingFields` | client/src/pages/DSASheet.jsx:43-52 | the loop over `requiredFields` pushes one message per failed field, in order, and ends with an empty list iff the topic has the required shape |
| `DsaSheet.KeepsTopic` | client/src/pages/DSASheet.jsx:29-60 | the validation callback only keeps an object whose `problems` is an array; the full condition is `KeepsTopicIff` |
| `DsaSheet.KeepsTopicIff` | client/src/pages/DSASheet.jsx:29-60 | a topic survives validation iff it is truthy and has the required shape; the shape alone already implies truthy |
| `DsaSheet.ValidTopics` | client/src/pages/DSASheet.jsx:29 | `validTopics` is no longer than the response and every entry it holds passes the validation callback; order and multiplicity are `ValidTopicsSpec` |
| `DsaSheet.ValidTopicsSpec` | client/src/pages/DSASheet.jsx:29-60 | validation returns a subsequence of the response, in order, keeping every entry of the required shape once per position and dropping every other entry |
| `DsaSheet.FetchTopics` | client/src/pages/DSASheet.jsx:13-66 | a non-array response sets "Invalid data format received" and keeps the old topics; an array replaces them with its valid entries and clears the error; a thrown error sets its message and keeps the old topics; loading ends in every case |
| `DsaSheet.FetchedTopicsAreWellShaped` | client/src/pages/DSASheet.jsx:29-63 | after a successful fetch every topic held by the page has the required shape |
| `DsaSheet.FilterTopics` | client/src/pages/DSASheet.jsx:101-102 | `filterTopics` of a non-array is the empty list |
| `DsaSheet.SearchMatches` | client/src/pages/DSASheet.jsx:110-111 | a blank query matches every name; the full condition is `SearchMatchesIff` |
| `DsaSheet.LevelMatches` | client/src/pages/DSASheet.jsx:114-115 | a level matches a filter other than `all` only when both have the same length; the full condition is `LevelMatchesIgnoresCase` |
| `DsaSheet.TopicMatches` | client/src/pages/DSASheet.jsx:104-125 | the `topics.filter` callback keeps only objects with a string name and a string level |
| `DsaSheet.SearchMatchesIff` | client/src/pages/DSASheet.jsx:110-111 | the search matches iff the query is blank, or the lower-cased trimmed query occurs in the lower-cased name |
| `DsaSheet.LevelMatchesIgnoresCase` | client/src/pages/DSASheet.jsx:114-115 | the filter `all` matches every level; any other filter matches iff level and filter have the same length and agree character by character up to ASCII case; lower-casing the level first changes nothing |
| `DsaSheet.FilterTopicsSpec` | client/src/pages/DSASheet.jsx:104-126 | filtering an array returns a subsequence, in order, keeping every matching topic once per position and dropping every other topic; a topic without a string name or level never survives |
| `DsaSheet.FilterTopicsShowsAll` | client/src/pages/DSASheet.jsx:105-125 | with a blank query and the filter `all`, exactly the topics with a string name and level are shown |
| `DsaSheet.FilterTopicsIdempotent` | client/src/pages/DSASheet.jsx:104-126 | filtering the filtered list again under the same query and filter changes nothing |

## Left out

- Authentication routes (`server/routes/auth.js`): registration, login and profile only call the database, bcrypt and JWT. The hard-coded fallback signing secret is a defect, not behaviour to model.
- The auth middleware that guards every route: `server/middleware/auth.js` is not part of this model. Every route is modelled as if the request were already authorised.
- Server setup (`server/index.js`), the HTTP client (`client/src/services/api.js`) and the UI components: configuration, I/O and rendering.
- The client's toggle call sends one argument where two are expected, checks a different success message, and calls a progress endpoint the server lacks. This is glue between client and server and is neither modelled nor corrected.
- Overall and per-topic progress percentages: they use floating-point division and `Math.round`, and give NaN when `total` is 0.
- The development-only mock fallback in `fetchTopics`, and all console logging. `DsaSheet.FetchTopics` models the production path after a thrown error.
- `DsaSheet.FetchTopics`: only the final state is modelled. The intermediate state (loading on, error cleared) that React renders while the request is pending is not.
- JavaScript strings are modelled in ASCII only. `toLowerCase` maps A-Z only, and `trim` removes space, tab, LF, VT, FF and CR only, not the Unicode spaces and line terminators.
- `parseInt` leniency (`"2x"` parses as 2): route ids are modelled as already parsed.
- JSON numbers are exact real numbers. `JSON.parse` rounds `1e400` to Infinity and `1e-400` to 0, which is falsy, but the model keeps both as non-zero reals. This cannot be seen here: an entry that is a number fails the shape check and the string checks of `filterTopics` whatever its truthiness.
- `DsaRoutes.Catalog.Toggle`: topics and problems are value records in a sequence that the method reassigns. The shared JavaScript objects are not modelled. Each reply is serialised at once, so this aliasing is not observable.
- Concurrent requests on the shared catalog: each handler runs to completion on the event loop, so operations are modelled one at a time.
