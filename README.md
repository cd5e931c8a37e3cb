# Person-century cache: the temporal inference of `createcache.py`

`createcache.py` gives each person of the BDRC person records one or more
century numbers. It works in three steps, and this project models each one
and proves properties of it:

1. **Dates per person.** Every `eventWhen` string of a person is an
   EDTF-like fuzzy date, such as `1550`, `155X`, `15`, `1550/1600`,
   `[1550,1560]` or `~1550?`. `eventWhenToYears` turns it into an
   optional earliest and latest year. `getsimpledates` folds these into
   one bound, starting from the sentinel `(9999, 0)`.
2. **What is stored.** `cacheforPfile` stores a person with dates only
   when the lower year left the sentinel. Otherwise it stores the
   person's links to other persons.
3. **Centuries.** `getcenturyfordates` maps a bound to its centuries,
   and flags bounds spanning more than three centuries as problematic.
   The loop of `main` classifies every dated person and counts the
   centuries in the histogram `percentury`. `addmissing` then lets each
   person with only links borrow the bound of every dated person it
   links to. The borrowed bound is shifted by the relation: a generation
   is 20 years, and an incarnation gives a 30-year bound. Borrowed bounds
   are classified and counted the same way.

## Modules

- `Options`: the `Option` datatype.
- `Text`: these Python string operations on `seq<char>`:
  - `replace` of one character, as `Remove` and `Replace`;
  - `split` on one character;
  - `int()`, modelled as an optional sign followed by ASCII digits.
    `Show` writes the decimal form of an integer, and `int()` reads it
    back (`ParseShow`). The converse does not hold: `int()` also accepts
    a `+` and leading zeros, so `ParseInt("007") == Some(7)` while `Show(7)`
    is `"7"`.
- `EventWhen`: `eventWhenToYears`, with one lemma per branch, in source
  order.
- `PersonDates`: the fold of `getsimpledates`. It is a function
  (`MergeDates`) and a loop (`SimpleDates`) proved equal to it.
- `Centuries`: the value `getcenturyfordates` returns (`Classify`), and
  the coarse test that adds to `problematic`.
- `Propagation`: the date shifts of `addmissing`.
- `Histogram`: `percentury` as a map from century to count.
- `KnowledgeBase`: the dictionary `kb` as a class `KB` with four fields:
  - `names`: the person keys, in Python's insertion order;
  - `records`: the person entries;
  - `perCentury`: the histogram;
  - `problematic`: the problematic list.

  Its methods are one person's step of `cacheforPfile`,
  `getcenturyfordates`, and the loops of `main` and `addmissing`. Each
  method is proved against a specification function: the loops against
  functions over the keys in order, `CenturyForDates` against
  `Classify`, and `Tally` against `TallyAll` over its list of centuries.

Integers are unbounded in both Python and Dafny. Python's `//` floors, and
Dafny's `/` agrees with it for the divisor 100. The float test
`ratio < 0.2` is written `5 * yearsInFirst < yearsInSecond`, and
`ratio > 5` is written `yearsInFirst > 5 * yearsInSecond`. Both rewrites
are exact because in that branch the second share is 1 to 99 years
(`Centuries.AdjacentShares`).

In four places the code does something other than what a reader would
expect. Each bullet names where that expectation comes from. The model
follows the code:

- **Intervals with one side unknown.** In the Extended Date/Time Format
  (EDTF, the Library of Congress format that ISO 8601-2 adopted), a blank
  side of an interval is an unknown start or end (`..` would make it
  open). So `/16XX` is an interval with an unknown start that ends in
  1699, and `16XX/` has an unknown end and starts in 1600. The code replaces the placeholders in the whole token, slash
  included (createcache.py:58, 61). It returns the strings `/1699` and
  `1600/`, which `int()` rejects (createcache.py:87, 92), so such an event
  contributes no year (`PersonDates.OpenRangeUnusable`).
- **`incarnationActivities`.** The list of "has incarnation" relations
  (createcache.py:189) has a `hasIncarnationActivities` entry. Its mirror
  list of "is incarnation of" relations (createcache.py:185) has no
  `incarnationActivities`, and has `incarnationYangtse` twice instead. A
  link through `incarnationActivities` therefore borrows the target's
  bound unchanged (`Propagation.FatherExample`).
- **The coarse fallback.** Every other branch turns a floor-divided year
  into a 1-indexed century by adding one (createcache.py:115, 119,
  129-139). The branch for more than three centuries returns `secondc`
  itself (createcache.py:123), one less than the upper year's century
  (`Centuries.CoarseFallback`).
- **The sentinel.** The running bound starts as the pair (9999, 0)
  (createcache.py:77-78), but only its first half is tested
  (createcache.py:158). A person with only an upper year is stored with
  links (`KnowledgeBase.RecordRule`).

## Model

| member | source | states |
|---|---|---|
| Text.Remove | createcache.py:45 | the character is gone, every other character occurs in the result exactly when it occurs in the input, and a string without it is unchanged |
| Text.RemoveCounts | createcache.py:45 | the occurrences of the character are dropped and every other character keeps its number of occurrences |
| Text.RemoveAppend | createcache.py:45 | removing from a concatenation is concatenating the removals, so the kept characters stay in their order |
| Text.RemoveChar | createcache.py:45 | a single character is dropped exactly when it is the one removed |
| Text.Replace | createcache.py:53-54 | same length; each occurrence of the old character becomes the new one and every other position is unchanged |
| Text.Split | createcache.py:64 | at least one piece, at least two when the separator occurs, no piece holds the separator, and pieces only hold characters of the input |
| Text.SplitCount | createcache.py:64 | one more piece than there are separators |
| Text.JoinSplit | createcache.py:64 | joining the pieces of `split` with the separator gives back the input |
| Text.ParseInt | createcache.py:87 | a non-empty digit string reads as its decimal value, and a `-` or `+` followed by digits reads as that value negated or unchanged; a string is accepted exactly when it has one of these two forms |
| Text.ParsedCharacters | createcache.py:87 | a string `int()` accepts is non-empty, is digits after its first character, and starts with a digit or a sign |
| Text.ParseShow | createcache.py:87 | `int()` of the decimal form of any integer is that integer |
| EventWhen.StripMarkers | createcache.py:45 | no `?`, `%` or `~` is left, and any other character occurs in the result exactly when it occurs in the input |
| EventWhen.StripMarkersCounts | createcache.py:45 | the markers are dropped and every other character keeps its number of occurrences |
| EventWhen.StripMarkersAppend | createcache.py:45 | stripping a concatenation is concatenating the stripped parts, so the kept characters stay in order |
| EventWhen.StripMarkersChar | createcache.py:45 | a single character is dropped exactly when it is one of the three markers |
| EventWhen.EventWhenToYears | createcache.py:44-74 | both strings it returns are free of the three markers |
| EventWhen.CenturyShorthand | createcache.py:48-50 | a two-character token gives the token followed by "00" and by "99" |
| EventWhen.ShortToken | createcache.py:51-56 | a token shorter than six characters without a slash gives its X-as-0 and X-as-9 readings, or itself twice when it has no X |
| EventWhen.OpenStart | createcache.py:57-59 | a leading slash gives no lower string and the whole token with X as 9 as the upper |
| EventWhen.OpenEnd | createcache.py:60-62 | a trailing slash gives the whole token with X as 0 as the lower and no upper |
| EventWhen.ClosedRange | createcache.py:63-67 | an inner slash gives the first piece with X as 0 and the second piece with X as 9 |
| EventWhen.CandidateList | createcache.py:68-73 | a bracketed list gives its first candidate with X as 0 and its last with X as 9 |
| EventWhen.Unrecognised | createcache.py:74 | any other long token gives neither bound |
| EventWhen.PlaceholderBounds | createcache.py:52-54 | for digits and X, both readings are digit strings and the X-as-0 value is at most the X-as-9 value |
| PersonDates.YearsList | createcache.py:83-84 | one contribution per `eventWhen` string, in order, each that string's parsed years |
| PersonDates.Merge | createcache.py:85-94 | one event can only lower the lower year and raise the upper year; the result is no larger than a usable lower year and no smaller than a usable upper year, and each end is either unchanged or that year |
| PersonDates.MergeDates | createcache.py:76-95 | the merged lower year is at most 9999 and at most every usable lower year; the upper year is at least 0 and at least every usable upper year |
| PersonDates.MergeAllExtremes | createcache.py:77-95 | the merged lower year is at most 9999 and at most every usable lower year; it is 9999 or equals one of them; the same holds dually for the upper year and 0 |
| PersonDates.MergeDatesExtremes | createcache.py:76-95 | the same bounds for a person's `eventWhen` strings: `min` and `max` over the years that parse, from the sentinel |
| PersonDates.SimpleDates | createcache.py:76-95 | the loop over the events returns exactly the merged bound |
| PersonDates.NoUsableYear | createcache.py:77-78 | without any year that parses, the result is the sentinel (9999, 0) |
| PersonDates.MergeCommutes | createcache.py:87-92 | two consecutive events can be merged in either order with the same result |
| PersonDates.MergeDatesCovers | createcache.py:79-95 | a list of events that contains every event of another gives a bound at least as wide |
| PersonDates.MergeDatesOrderIrrelevant | createcache.py:79-95 | two lists of `eventWhen` strings with the same members give the same bound, whatever the order of the graph's triples and however often an event repeats |
| PersonDates.CenturyShorthandYears | createcache.py:48-50 | a two-digit token dd covers the years dd00 to dd99 |
| PersonDates.PatternYears | createcache.py:52-54 | a non-empty string of digits and X reads as an integer both ways, the X-as-0 value no larger than the X-as-9 value |
| PersonDates.ShortTokenOrdered | createcache.py:51-56 | a short token of digits and X gives two usable years in order |
| PersonDates.OpenRangeUnusable | createcache.py:57-62 | an interval with one side blank contributes neither year, because the slash stays in the string |
| Centuries.Consecutive | createcache.py:118-119 | the list from `from` to `to`, one step at a time |
| Centuries.Coarse | createcache.py:121 | a bound is coarse exactly when its upper year's century is at least four after its lower year's century |
| Centuries.Classify | createcache.py:109-141 | at most four centuries, and none exactly when the upper century is before the lower one |
| Centuries.SameCentury | createcache.py:114-116 | one century gives that century, not flagged |
| Centuries.SeveralCenturies | createcache.py:117-120 | two or three centuries apart gives every century from the first to the last, ascending, not flagged |
| Centuries.CoarseFallback | createcache.py:121-124 | more than three centuries apart gives only `secondc`, one less than the upper year's century |
| Centuries.ReversedBound | createcache.py:141 | an upper century before the lower one gives nothing and is not flagged |
| Centuries.AdjacentShares | createcache.py:125-127 | in the adjacent branch the first share is 1..100 years and the second 0..99 |
| Centuries.AdjacentCenturies | createcache.py:125-140 | adjacent centuries: the boundary case, the two five-to-one cases and the split that gives the later century first |
| Centuries.ClassifyWithinBound | createcache.py:109-141 | for an ordered bound, every returned century contains a year of the bound |
| Centuries.ClassifyDistinct | createcache.py:109-141 | no century is returned twice |
| Centuries.TestGetcCases | createcache.py:246-255 | the values of the eight calls that `testgetc` prints |
| Propagation.RelationListsDisjoint | createcache.py:183-190 | no relation is in two of the four lists |
| Propagation.BorrowIsTable | createcache.py:182-191 | in `Borrow`, the chain of membership tests and shifts equals one transform per relation: older −20, younger +20, later incarnation (hi, hi+30), earlier incarnation (lo−30, lo), otherwise unchanged |
| Propagation.BorrowKeepsOrder | createcache.py:182-191 | an ordered bound stays ordered; an incarnation gives a 30-year bound and any other relation keeps the width |
| Propagation.FatherExample | createcache.py:183-191 | the concrete shifts for father, incarnation, has-incarnation and the unlisted `incarnationActivities` |
| Histogram.Inc | createcache.py:235-237 | the key is present afterwards; its count goes up by one and all other counts stay |
| Histogram.TallyAllCount | createcache.py:234-237 | each century's count goes up by the number of times it occurs in the list |
| Histogram.TallyAllAppend | createcache.py:234-237 | counting two lists one after the other is counting their concatenation |
| Histogram.TotalInc | createcache.py:235-237 | one increment adds one to the sum of all counts |
| Histogram.TotalTallyAll | createcache.py:234-237 | counting a list adds its length to the sum of all counts |
| KnowledgeBase.RecordFor | createcache.py:158-162 | an entry with dates exactly when the lower year is not the sentinel 9999, holding the bound; otherwise an entry with the links |
| KnowledgeBase.RecordRule | createcache.py:158-162 | a person is stored with dates exactly when some event gives a usable lower year below 9999, and then with the merged bound; otherwise it is stored with its links |
| KnowledgeBase.BorrowedNonEmpty | createcache.py:176-179 | at most one borrowed bound per link, and at least one exactly when some link's target is present and dated |
| KnowledgeBase.InferredAtMostLinksOnly | createcache.py:171-175 | only persons stored with links can be counted as inferred |
| KnowledgeBase.FatherPropagation | createcache.py:168-199 | a person linked by `hasFather` to a person dated (1500, 1550) is counted as inferred and gets the centuries of (1480, 1530) |
| KnowledgeBase.KB.constructor | createcache.py:208 | an empty histogram, an empty problematic list and no persons |
| KnowledgeBase.KB.Restore | createcache.py:226-229 | the saved entries and histogram, and an empty problematic list when none was saved |
| KnowledgeBase.KB.RecordPerson | createcache.py:156-165 | the stored entry follows the record rule, a new key goes last, and a dated person is classified at once: it is flagged when coarse and `found` says whether it got a century |
| KnowledgeBase.KB.CenturyForDates | createcache.py:109-141 | returns the classified centuries and appends the person to the problematic list exactly when the bound is coarse |
| KnowledgeBase.KB.Tally | createcache.py:234-237 | the histogram afterwards is the old one with every given century counted once more |
| KnowledgeBase.KB.ClassifyEntry | createcache.py:231-238 | one entry of the loop of `main`: only a dated person key is classified and counted |
| KnowledgeBase.KB.ClassifyDated | createcache.py:230-238 | the number of dated persons, the histogram grown by their centuries in key order, and the problematic list grown by their coarse bounds |
| KnowledgeBase.KB.BorrowFrom | createcache.py:177-197 | a link counts exactly when its target is dated; then the shifted bound is classified and counted, and otherwise nothing changes |
| KnowledgeBase.KB.PropagateEntry | createcache.py:170-198 | one entry of `addmissing`: 1 exactly when it is a person with links and at least one dated target, with every borrowed bound classified and counted in link order |
| KnowledgeBase.KB.AddMissing | createcache.py:168-199 | the number of inferred persons, which is at most the number of persons with links; the histogram grown by all borrowed centuries in key order; and the problematic list grown by the coarse borrowed bounds |
| KnowledgeBase.KB.ComputeCenturies | createcache.py:230-239 | the two passes in sequence: the dated count, the inferred count bounded by the links-only count, the histogram grown by the direct then the borrowed centuries, the problematic list grown likewise |

## Left out

- RDF graph access with rdflib (`model.triples`, `ConjunctiveGraph`, `NamespaceManager`): a person's events are given as their `eventWhen` strings, and its links as (target, relation) pairs.
- `getlinks` (createcache.py:97-107): the links are a parameter of `RecordPerson`.
- The per-event type lookup (createcache.py:80-82): its result is never used.
- `cacheforPfile`'s file handling: parse failures, the release-status check, the `None` returns, the loop over the persons of one file, and its early return after the first undated person. `RecordPerson` is one person's step.
- `main`'s file listing, progress bar, the single-person `wrid` mode, the YAML load and dump (`Restore` takes the loaded values), the final print of the counts, and the Turtle output.
- The triples `associatedCentury` added to `res` (createcache.py:196, 238): these are the same centuries that are counted in the histogram.
- The "wrong edtf" messages (createcache.py:89, 94): only printed.
- Text.ParseInt: does not accept the surrounding whitespace, the underscores between digits, or the non-ASCII digits that Python's `int()` accepts.
- Entries restored from YAML with neither "dates" nor "links", or with non-integer dates: a `Record` is always one or the other, with integer years.
