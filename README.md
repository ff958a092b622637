# Grayjay client-server utilities in Dafny

This project models the two sequential algorithms in
`Grayjay.ClientServer/Utilities.cs` of the Grayjay desktop client:

- **`ParseUrl`** breaks an `https://`, `http://` or `file://` URL into its
  scheme, host-and-port, host, port and path. Any other URL raises
  `InvalidDataException`. The port defaults to 80 for `http` and to 443 for
  every other scheme, `file` included. An explicit port goes through
  `int.Parse`. The model is pure functions (module `Url`, file `url.dfy`).
  The failures are a `Result` carrying the exception kind: `InvalidData`,
  `Format` or `Overflow`.
- **`SmartMerge` / `FindNewIndex`** merge the items of `toMerge` that
  `targetArr` lacks into a copy of `targetArr`. Each item is meant to go
  next to its nearest `toMerge` neighbour that is already in the list. See
  Findings for the cases where the code puts it elsewhere. Both are methods
  with loops (module `Merge`, file `merge.dfy`). Each is proved against a
  specification function: `PlacementIndex` for `FindNewIndex`, and
  `SmartMergeOf` for `SmartMerge`. The source's properties are proved about
  those functions.

The .NET library calls these algorithms use are in module `Sequences`
(`sequences.dfy`): `String.IndexOf(char)`, `List<T>.IndexOf`,
`List<T>.FindIndex(x => x.Equals(v))`, `List<T>.Insert` and ordinal
`StartsWith`. That module also defines `Subseq`, the relation "holds the same
items in the same relative order", which states that a merge keeps an
ordering.

Lists are modelled as sequence values. So `SmartMerge` cannot change either
argument, and its result is a fresh list, as `targetArr.ToList()` makes it.

The record `UrlParseResult` (Grayjay.ClientServer/Utilities.cs:8-16) is the
datatype `Url.UrlParseResult`, with one field per property. The `file` scheme
also gets default port 443, like `https`.

## Model

| member | source | states |
|---|---|---|
| `Sequences.IndexOf` | Grayjay.ClientServer/Utilities.cs:42-45 | returns -1 exactly when the item is absent; otherwise the position of its first occurrence |
| `Sequences.StartsWith` | Grayjay.ClientServer/Utilities.cs:24-34 | ordinal prefix test: holds exactly when the prefix is no longer than the text and agrees with it character by character, and the text is then the prefix followed by the rest |
| `Sequences.Insert` | Grayjay.ClientServer/Utilities.cs:152 | `List.Insert`: the list grows by one, the item is at the given index, and the items on either side keep their order; the multiset gains exactly that item |
| `Sequences.SubseqReflexive` | Grayjay.ClientServer/Utilities.cs:144 | a copy of the target holds the target's items in their order |
| `Sequences.SubseqInsert` | Grayjay.ClientServer/Utilities.cs:149-152 | an insertion at any index keeps every ordering the list already contained |
| `Url.ParseInt` | Grayjay.ClientServer/Utilities.cs:47 | `int.Parse` on unsigned decimal text: succeeds exactly on non-empty all-digit text of value at most int.MaxValue; otherwise `Overflow` for too large a digit string and `Format` for the rest |
| `Url.ShowDecimalDigits` | Grayjay.ClientServer/Utilities.cs:47 | decimal text written for a number is all digits and has that number as its value |
| `Url.ParseIntShowDecimal` | Grayjay.ClientServer/Utilities.cs:47 | round trip: port text written in decimal parses back to the same port |
| `Url.DefaultPort` | Grayjay.ClientServer/Utilities.cs:47 | the default port is 80 exactly for `http` and 443 otherwise |
| `Url.SplitAtFirst` | Grayjay.ClientServer/Utilities.cs:42-46 | the part before the first separator holds no separator; the two parts join back to the input; the second part is empty or starts with the separator |
| `Url.ParseUrl` | Grayjay.ClientServer/Utilities.cs:20-58 | fails with `InvalidData` exactly when the URL has none of the three prefixes. With one of them, it fails exactly when host-and-port holds a ':' and `int.Parse` fails on the text after the first one. On success, `Url` is the input, and `Scheme` is the matched prefix's name. Host-and-port holds no '/' and stops at the first '/'. The path starts with '/', and is "/" when the remainder has no '/'. Host-and-port plus path give the remainder back. The host holds no ':'. With a ':' the port is `int.Parse` of the text after it, and otherwise the scheme's default |
| `Url.KnownRemainder` | Grayjay.ClientServer/Utilities.cs:27-37 | `url.Substring(prefix.Length)`: the result is the URL with exactly one of "https://", "http://" or "file://" removed from its front. Only one of them can match a URL, so the remainder is fixed |
| `Url.ParseAfterScheme` | Grayjay.ClientServer/Utilities.cs:24-38 | once a known prefix is stripped, no `InvalidData` error can occur. The result keeps the URL and the scheme, and it fails exactly when the port text fails to parse |
| `Url.SplitRemainder` | Grayjay.ClientServer/Utilities.cs:42-57 | the remainder splits into host-and-port and path at its first '/', and host-and-port into host and port at its first ':'; only `int.Parse` can fail |
| `Url.SplitHostAndPort` | Grayjay.ClientServer/Utilities.cs:45-47 | host-and-port and path are kept. The host stops before the first ':' and holds none. The port is `int.Parse` of the text after that ':', or the scheme's default when there is no ':'. Only `int.Parse` can fail |
| `Url.SplitRemainderFails` | Grayjay.ClientServer/Utilities.cs:42-47 | the split of the remainder fails exactly when host-and-port holds a ':' and `int.Parse` fails on the text after the first one |
| `Url.SplitAtFirstOfParts` | Grayjay.ClientServer/Utilities.cs:42-46 | splitting `a + b` at the first separator gives back `a` and `b` when `a` lacks it and `b` starts with it |
| `Url.ParseUrlOfScheme` | Grayjay.ClientServer/Utilities.cs:24-38 | a URL starting with `https://`, `http://` or `file://` takes that scheme's branch: `http://` is not mistaken for `https://` |
| `Url.SplitRemainderWithPort` | Grayjay.ClientServer/Utilities.cs:42-57 | host, ':' port text and path are split back into exactly those parts |
| `Url.ParseUrlWithPort` | Grayjay.ClientServer/Utilities.cs:20-58 | round trip: a URL built from a known scheme, a host without '/' or ':', a port text without '/' and a path (empty or starting with '/') parses back into those parts, with path "/" for an empty path. It fails exactly when `int.Parse` fails on the port text, with that error |
| `Url.ParseUrlWithoutPort` | Grayjay.ClientServer/Utilities.cs:20-58 | round trip without a port: the same parts come back, with the scheme's default port and `Host == HostAndPort` |
| `Url.ParseUrlPortNumber` | Grayjay.ClientServer/Utilities.cs:20-58 | a URL carrying any port up to int.MaxValue in decimal parses, and reports that port and host |
| `Merge.Missing` | Grayjay.ClientServer/Utilities.cs:143 | the missing items keep `toMerge`'s order and none of them is in the target |
| `Merge.MissingCount` | Grayjay.ClientServer/Utilities.cs:143 | every item the target lacks is kept as many times as `toMerge` holds it (duplicates counted) |
| `Merge.LastPresentBelow` | Grayjay.ClientServer/Utilities.cs:163-173 | the index of the nearest earlier item that is already in the new list, or -1 when no earlier item is there |
| `Merge.FirstPresentFrom` | Grayjay.ClientServer/Utilities.cs:174-184 | the index of the nearest later item that is already in the new list, or -1 when no later item is there |
| `Merge.NeighbourBefore` | Grayjay.ClientServer/Utilities.cs:160-173 | the position in `originalArr` of the nearest item before the item's first position in `originalArr` that is already in the new list, or -1 when none is |
| `Merge.NeighbourAfter` | Grayjay.ClientServer/Utilities.cs:160-184 | the position in `originalArr` of the nearest item after the item's first position in `originalArr` that is already in the new list, or -1 when none is |
| `Merge.PlacementIndex` | Grayjay.ClientServer/Utilities.cs:158-189 | the index FindNewIndex computes is never negative. With a preceding neighbour in the list, the slot just before the index holds the FIRST copy of that neighbour (`FindIndex`). Otherwise, with a following neighbour not at the head of the list, the slot just after the index holds that neighbour's first copy. Otherwise the index is `originalArr.Count` |
| `Merge.FindNewIndex` | Grayjay.ClientServer/Utilities.cs:158-189 | the two outward searches with `break` return exactly `PlacementIndex` |
| `Merge.PlaceIndex` | Grayjay.ClientServer/Utilities.cs:148-152 | the index handed to `Insert` is never negative, so with the `>= Count` test every insertion is in range |
| `Merge.Place` | Grayjay.ClientServer/Utilities.cs:149-152 | `Add` at or past the end, `Insert` otherwise: the same as an insertion at the index clamped to the list's length |
| `Merge.MergeInto` | Grayjay.ClientServer/Utilities.cs:146-153 | the `foreach` loop as a function of the list so far and the items still to place: each pending item adds exactly one element |
| `Merge.SmartMergeOf` | Grayjay.ClientServer/Utilities.cs:141-156 | the list SmartMerge returns: the target's length plus one per missing item (the full properties are `SmartMergeOfSpec`) |
| `Merge.MergeIntoKeeps` | Grayjay.ClientServer/Utilities.cs:146-153 | the loop only inserts: any ordering the list contains survives, and the pending items are added once each |
| `Merge.SmartMergeOfSpec` | Grayjay.ClientServer/Utilities.cs:141-156 | the target is a subsequence of the result (same items, same relative order). Every item of `toMerge` is in the result. The result is the target plus the missing items as a multiset, so its length is the target's plus the number of `toMerge` entries the target lacks |
| `Merge.SmartMerge` | Grayjay.ClientServer/Utilities.cs:141-156 | the loop computes `SmartMergeOf` under the source's placement, and the result keeps the target's order, holds every item of `toMerge`, and has the stated length and contents |
| `Merge.IntendedIndex` | Grayjay.ClientServer/Utilities.cs:158-189 | corrected placement: an index within the list. After the insertion, the item sits right after the first copy of its nearest preceding neighbour. Failing that, it sits right before the first copy of its nearest following neighbour. With no neighbour present, the index is the end of the list |
| `Merge.NoNeighbourInsertsMidList` | Grayjay.ClientServer/Utilities.cs:185-186 | merging `[9]` into `[1, 2, 3]` gives `[1, 9, 2, 3]` as written and `[1, 2, 3, 9]` when corrected |
| `Merge.FollowingNeighbourFirstAppended` | Grayjay.ClientServer/Utilities.cs:175-186 | merging `[9, 2]` into `[2, 5]` gives `[2, 5, 9]` as written, so 9 ends up after 2. Corrected, it gives `[9, 2, 5]` |
| `Merge.FollowingNeighbourOffByOne` | Grayjay.ClientServer/Utilities.cs:181 | merging `[9, 2]` into `[5, 2]` gives `[9, 5, 2]` as written and `[5, 9, 2]` when corrected |

## Left out

- `ConnectAsync` and `TryConnectAsync` (Grayjay.ClientServer/Utilities.cs:60-124) are left out. They race `TcpClient` connects on tasks, with linked cancellation, timeouts and socket closing. That is concurrency and operating-system resources, with no sequential core to state.
- `GetIPs` (both overloads) is left out. It is a pass-through over the operating system's network-interface list and the `IPAddress` library.
- The `Logger.i` calls are diagnostic output and are not modelled.
- `Url.ParseInt` is weaker than `int.Parse`. It accepts only unsigned decimal digits. .NET also accepts surrounding white space and a leading sign, and it is culture-dependent. The model reports `Format` for such text, where .NET may return a number, including a negative port.
- `StartsWith` is modelled as an ordinal prefix test. The culture-sensitive comparison .NET uses by default is not modelled.
- Null arguments are not modelled: a null URL, null lists, and null list items. For null items, `x.Equals` in `FindIndex` would throw. Element equality is Dafny's `==`, standing for `Equals`.
- `Grayjay.Desktop.Web/src/backend/PlaylistsBackend.ts` is not part of this model. It is a thin HTTP client wrapper with no logic of its own.
- `Merge.SmartMerge` is proved against the source's placement rule. The corrected rule, `IntendedIndex`, is proved about and used by the merge specification `SmartMergeOf(Intended, …)`, which the preservation lemmas cover, but no separate method runs it.

## Findings

| source | as written | input that shows it | evidently intended | confidence | as-written member | corrected member |
|---|---|---|---|---|---|---|
| Grayjay.ClientServer/Utilities.cs:185-186 | with no neighbour of the item present in the new list, FindNewIndex returns `originalArr.Count`, the length of `toMerge` | `SmartMerge([1, 2, 3], [9])` gives `[1, 9, 2, 3]` | return the new list's length, so that the item is appended: `[1, 2, 3, 9]` | medium (not executed) | `Merge.NoNeighbourInsertsMidList` | `Merge.IntendedIndex` |
| Grayjay.ClientServer/Utilities.cs:181 | with a following neighbour at slot j > 0, FindNewIndex returns j - 1. The item then lands before the element ahead of its neighbour | `SmartMerge([5, 2], [9, 2])` gives `[9, 5, 2]` | return j, placing the item right before its neighbour: `[5, 9, 2]` | medium (not executed) | `Merge.FollowingNeighbourOffByOne` | `Merge.IntendedIndex` |
| Grayjay.ClientServer/Utilities.cs:181-186 | with the following neighbour at slot 0, j - 1 is -1, and the `originalArr.Count` fallback puts the item after that neighbour | `SmartMerge([2, 5], [9, 2])` gives `[2, 5, 9]`, reversing the order `toMerge` gives 9 and 2 | place the item at slot 0: `[9, 2, 5]` | high (not executed) | `Merge.FollowingNeighbourFirstAppended` | `Merge.IntendedIndex` |
