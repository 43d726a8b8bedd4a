# Rings: trust tiers and proximity engine, modelled in Dafny

Rings is a location-based chat app. Almost all of it is screens and calls to a hosted
backend. This project models the part that makes decisions:

- **Trust tiers** (`trust.dfy`, module `Trust`). There are five tiers: Guest, Local,
  Resident, OldTimer and Guardian. The model has the table of what each tier allows, the
  table of what each tier requires, and `getRingProgress`. That function gives a profile's
  next tier, one met-or-not check per requirement, and the share of checks met.
- **Anti-spam window** (`antispam.dfy`, module `AntiSpam`). The client keeps a log of
  send times. The log is pruned lazily to the last hour. The model has recording and the
  periodic tick, plus the limit, the remaining count, the minutes until reset and the warning.
- **Adaptive radius** (`radius.dfy`, module `AdaptiveRadius`). One 500 m step of the
  search radius toward a target band of users, with a floor and a ceiling.
- **Current zone** (`zones.dfy`, module `CurrentZone`). Among the fetched zones, pick the
  nearest one that contains the user. If none contains the user, pick the nearest zone
  overall. The first zone wins ties.
- **Location upload gate** (`location.dfy`, module `Location`). A position is uploaded only
  if it is at least 50 m from the last uploaded one.
- **Zone chat list** (`zonechat.dfy`, module `ZoneChat`). Row defaults, paging with a
  reset or an append, realtime inserts that skip ids already listed, and the guards on
  loading more and on sending.
- **Relative time** (`time.dfy`, module `RelativeTime`). Elapsed milliseconds go into one
  of six labels.

`geo.dfy` holds coordinates and an abstract distance type. `wrappers.dfy` holds `Option`,
which stands for the source's `null` and `undefined`. `clock.dfy` holds the millisecond
durations shared by the anti-spam window and the relative-time labels, and `jsmath.dfy`
holds `Math.max`, `Math.min` and the rounded-up quotient on integers.

Inputs the source reads from outside are parameters:

- The clock (`Date.now()`) is an integer `now` in milliseconds.
- The great-circle distance is a function parameter `dist`, and the model assumes nothing
  about it.
- Results from the zone directory, the profile store and the message store are parameters.
  The paged message fetch is a function from the request (zone, subchannel, page size,
  offset) to its result, so contracts can name the offset that was asked for.
- `toLocaleDateString` is an opaque string parameter.
- The translated anti-spam warning is a datatype, `AntiSpam.Warning`. `formatRelativeTime`
  uses no translation: its Russian and English texts are literals, and they are written out.

Behaviour of the code worth knowing:

- `recordMessage` does not check `canSend` before it appends.
- A change of the chat hook's `zoneId` or `subchannel` re-runs only its effect. The message list,
  the page offset, `hasMore` and the error stay from the previous zone until a load replaces
  them. So after a failed reset load, the next `loadMore` asks the new zone for a page at the
  old offset. A re-render with the same pair does not re-run the effect and changes nothing.
- Nothing rolls back a send the server rejects.
- `canSend` reads the `messagesSent` state. That state is refreshed only by the 10-second
  tick and by `recordMessage`, so it is not a fresh prune when the decision is made.
- The haversine formula has no clamp on its intermediate value.
- Paged loads append without removing duplicates. A realtime insert moves the server's
  offsets by one, so the next page can repeat a message already in the list.
  `OnInsert` keeps ids unique, but `LoadMessages` does not promise it.
- `sendToSupabase` sets `lastSentRef` before the upload call and keeps it whatever the
  upload returns. The model does the same.

## Model

| member | source | states |
|---|---|---|
| `Trust.RingLimits` | src/services/trust.ts:5-41 | Messages per hour lie between 10 and 1000. Direct messages open at Local, zone creation at Resident and permanent zones at OldTimer, each staying open above. Permanent zones need zone creation, which needs direct messages. Only Guardian is unlimited (-1), and a tier may create zones iff its zone allowance is not 0 |
| `Trust.RingRequirements` | src/services/trust.ts:44-50 | A phone is required exactly above Guest. Guest needs 0 days and 0 karma; every higher tier needs at least 3 days; no tier needs negative karma |
| `Trust.HasPhone` | src/services/trust.ts:128-130 | `!!profile.phone`: true iff a phone is present and is not the empty string |
| `Trust.RingLimitsMonotone` | src/services/trust.ts:5-41 | For a lower tier below a higher one: messages per hour strictly increase (10, 60, 120, 300, 1000); each privilege flag, once true, stays true; the zone allowance does not decrease when -1 is read as unlimited |
| `Trust.RingRequirementsMonotone` | src/services/trust.ts:44-50 | Required active days and karma never decrease with tier; once phone is required it stays required; it is required from Local upward |
| `Trust.QualifiesDownward` | src/services/trust.ts:44-50 | A profile that meets a tier's requirements meets those of every lower tier |
| `Trust.FilterTrue` | src/services/trust.ts:134 | `filter(Boolean)` keeps only true entries, never more than there are flags |
| `Trust.FilterTrueCount` | src/services/trust.ts:134 | `filter(Boolean)` keeps exactly one entry per true flag: its length is the number of `true`s in the flags |
| `Trust.MetCount` | src/services/trust.ts:134 | The count is the number of the three met flags that hold (at most 3; 3 exactly when all are met, 0 exactly when none is) |
| `Trust.GetRingProgress` | src/services/trust.ts:103-137 | At Guardian: no next tier, no progress, overall 1. Below it: next tier is exactly ring + 1, and each check compares against the next tier's row (days >= required, karma >= required with negative karma allowed, phone met iff not required or present and non-empty). Overall is the met count divided by 3, so it is in {0, 1/3, 2/3, 1}; it is 1 iff Guardian or all next-tier requirements are met, and 0 iff below Guardian and the days, the karma and the phone requirement are all unmet |
| `Trust.TwoOfThreeExample` | src/services/trust.ts:113-136 | A Guest with 3 active days, karma 0 and no phone has overall progress 2/3 |
| `Trust.FreshGuestProgress` | src/services/trust.ts:113-136 | A Guest with 0 days, karma 0 and no phone gets next tier Local and overall 1/3; only karma is met |
| `Trust.EmptyPhoneIsAbsent` | src/services/trust.ts:127-131 | A phone given as the empty string never meets the phone check below Guardian |
| `AntiSpam.Retained` | src/hooks/useAntiSpam.ts:24-27 | The pruned log is no longer than the log; a timestamp is in it iff it is in the log and strictly later than the cutoff, so an entry exactly one hour old is dropped |
| `AntiSpam.RetainedAppend` | src/hooks/useAntiSpam.ts:24-27 | Pruning preserves order: it distributes over concatenation |
| `AntiSpam.RetainedAll` | src/hooks/useAntiSpam.ts:24-27 | Pruning leaves the log unchanged iff every entry is later than the cutoff |
| `AntiSpam.RetainedNone` | src/hooks/useAntiSpam.ts:24-27 | Pruning empties a log none of whose entries is later than the cutoff |
| `AntiSpam.RetainedIdempotent` | src/hooks/useAntiSpam.ts:24-27 | Pruning twice at the same time equals pruning once |
| `AntiSpam.RetainedSortedSuffix` | src/hooks/useAntiSpam.ts:24-27 | On a time-ordered log, pruning removes a prefix, and the result stays ordered |
| `AntiSpam.RecordKeepsSorted` | src/hooks/useAntiSpam.ts:37-46 | If the log is ordered and no entry is later than `now`, pruning and appending `now` keeps it ordered, and its first entry is its oldest |
| `AntiSpam.BurstWindow` | src/hooks/useAntiSpam.ts:7 | For sends that all lie between `first` and `last`: pruning keeps every one of them while now < first + 1 h, and removes all of them once now >= last + 1 h |
| `AntiSpam.Limit` | src/hooks/useAntiSpam.ts:17-18 | The limit is the tier's messages per hour; with no profile it is Guest's 10; it is never below 10 |
| `JsMath.Max` | src/hooks/useAntiSpam.ts:48 | `Math.max`: the result is one of the two arguments and at least both |
| `JsMath.Min` | src/utils/adaptive-radius.ts:21 | `Math.min`: the result is one of the two arguments and at most both |
| `AntiSpam.MessagesRemaining` | src/hooks/useAntiSpam.ts:48 | Remaining is in [0, limit]; it is limit minus sent while below the limit, and 0 from the limit on |
| `AntiSpam.CanSend` | src/hooks/useAntiSpam.ts:49 | Sending is allowed iff at least one message remains |
| `JsMath.CeilDiv` | src/hooks/useAntiSpam.ts:54 | The integer result r of rounding a / b up satisfies b(r - 1) < a <= b r |
| `AntiSpam.MinutesUntilReset` | src/hooks/useAntiSpam.ts:51-55 | Null iff no reset time; 0 once the reset time has passed; otherwise the least whole number of minutes covering the remaining time |
| `AntiSpam.CountdownWithinHour` | src/hooks/useAntiSpam.ts:51-55 | A reset between now (exclusive) and one hour ahead is shown as 1 to 60 minutes |
| `AntiSpam.WarningMessage` | src/hooks/useAntiSpam.ts:59-68 | A warning is shown iff sending is blocked or at most 5 remain; when blocked it is "limit reached" with the minutes (0 if none); otherwise it reports the remaining count (1 to 5) and the optional minutes |
| `AntiSpam.SpamGuard.constructor` | src/hooks/useAntiSpam.ts:20-22 | The session starts with an empty log, a count of 0 and no reset time |
| `AntiSpam.SpamGuard.Prune` | src/hooks/useAntiSpam.ts:24-27 | The log becomes its pruned value at `now`. Afterwards no entry is an hour old or older. The count and the reset time are untouched |
| `AntiSpam.SpamGuard.Tick` | src/hooks/useAntiSpam.ts:29-35 | The tick prunes, sets the count to the pruned length, and leaves the reset time unchanged |
| `AntiSpam.SpamGuard.RecordMessage` | src/hooks/useAntiSpam.ts:37-46 | Recording prunes, then appends exactly one entry `now`, with no `canSend` check. The count becomes pruned length + 1 and the reset time becomes first entry + 1 h. If the log was ordered and not later than `now`, it stays ordered and the reset time is the oldest entry's + 1 h |
| `AdaptiveRadius.NextRadius` | src/utils/adaptive-radius.ts:9-24 | Above targetMax: one step down, floored at minRadius. Otherwise, below targetMin: one step up, capped at maxRadius. Within the band: unchanged. A radius within [min, max] stays within it and moves at most 500 |
| `AdaptiveRadius.RepeatedShrink` | src/utils/adaptive-radius.ts:17-19 | n crowded cycles from r >= min give max(min, r - 500 n) |
| `AdaptiveRadius.RepeatedGrow` | src/utils/adaptive-radius.ts:20-22 | n sparse cycles from r <= max give min(max, r + 500 n) |
| `AdaptiveRadius.BoundsAreFixedPoints` | src/utils/adaptive-radius.ts:17-22 | minRadius is fixed under any number of shrinking cycles; maxRadius is fixed under any number of growing cycles |
| `AdaptiveRadius.DefaultTuningExamples` | src/utils/adaptive-radius.ts:9-24 | With defaults: 5000 with 500 users gives 4500, with 5 gives 5500, with 100 gives 5000; ten shrinks from 5000 reach 500, a hundred grows reach 20000 |
| `CurrentZone.Contains` | src/hooks/useCurrentZone.ts:27-33 | A zone contains the point iff the distance to its centre is at most its radius; the boundary is included |
| `CurrentZone.Inside` | src/hooks/useCurrentZone.ts:26-34 | A zone is in the filtered list iff it is in the list and its distance is at most its radius |
| `CurrentZone.InsideAppend` | src/hooks/useCurrentZone.ts:26-34 | The filter keeps order: filtering a concatenation is the concatenation of the filtered parts |
| `CurrentZone.InsideOrder` | src/hooks/useCurrentZone.ts:26-34 | The k-th containing zone sits at some index n of the list, and every containing zone listed before n is among the first k containing zones |
| `CurrentZone.Candidates` | src/hooks/useCurrentZone.ts:36 | Candidates are empty iff the list is. If some zone contains the point, the candidates are exactly the containing zones; otherwise they are the whole list |
| `CurrentZone.Reduce` | src/hooks/useCurrentZone.ts:39-53 | The reduce returns the seed or a later zone, no farther than the seed or any later zone |
| `CurrentZone.Nearest` | src/hooks/useCurrentZone.ts:37-54 | The reduce over a non-empty list returns a member of minimal distance |
| `CurrentZone.ReduceFirstMinimal` | src/hooks/useCurrentZone.ts:52 | Because replacement needs strict `<`, the reduce returns the first zone of minimal distance |
| `CurrentZone.NearestFirstMinimal` | src/hooks/useCurrentZone.ts:37-54 | The nearest candidate is one of minimal distance, and every earlier candidate is strictly farther |
| `CurrentZone.EarliestIndex` | src/hooks/useCurrentZone.ts:26-54 | The nearest candidate is at some index n of the whole list, and every candidate listed before n is strictly farther |
| `CurrentZone.NearestEarliest` | src/hooks/useCurrentZone.ts:26-54 | Some index k of the whole list holds the nearest candidate, and every candidate listed before k is strictly farther |
| `CurrentZone.ResolveCurrentZone` | src/hooks/useCurrentZone.ts:26-54 | The result is null iff the list is empty, and otherwise a listed zone. If some zone contains the point, the result contains it and is nearest among containing zones; otherwise it is the nearest zone overall. Ties go to the earliest listed: the result is at an index k of the list, and every candidate before k is strictly farther |
| `CurrentZone.ContainingZoneBeatsCloserOutsider` | src/hooks/useCurrentZone.ts:26-36 | A point at the centre of a 1000 m zone resolves to that zone even when a non-containing zone comes first |
| `CurrentZone.TieGoesToFirst` | src/hooks/useCurrentZone.ts:52 | Of two containing zones at equal distance, the first listed is chosen |
| `CurrentZone.ZoneTracker.constructor` | src/hooks/useCurrentZone.ts:13-15 | The hook starts with no current zone, no nearby zones and not loading |
| `CurrentZone.ZoneTracker.FetchZones` | src/hooks/useCurrentZone.ts:17-58 | With no location nothing changes. Otherwise nearby zones become the fetched list (or [] for null), the current zone is resolved from it, and loading ends. A null or empty list gives no current zone |
| `Location.LocationTracker.constructor` | src/hooks/useLocation.ts:21-25 | Nothing has been sent or fetched yet, and the invariant holds |
| `Location.LocationTracker.SendToServer` | src/hooks/useLocation.ts:27-42 | An upload happens iff there is a user and either nothing was sent before or the move is at least 50 m. An upload records the position as last sent; otherwise last sent is unchanged. The invariant (last sent = latest upload, consecutive uploads at least 50 m apart) is preserved |
| `Location.LocationTracker.FetchLocation` | src/hooks/useLocation.ts:44-59 | A fix is displayed and clears the error whether or not its upload is suppressed. It is uploaded iff there is a user and it is the first or at least 50 m from the last sent; an upload carries the user and the fix, becomes the last sent and is appended to the uploads. Otherwise last sent and the uploads are unchanged. A failure records the error message or 'Location error' and uploads nothing |
| `ZoneChat.MapRow` | src/hooks/useZoneChat.ts:33-52 | Present fields are copied; missing ones default to nickname 'Unknown', ring 0, karma 0, reactions {} and the hook's subchannel |
| `ZoneChat.MapRows` | src/hooks/useZoneChat.ts:72 | The mapped page has one message per row, in row order |
| `ZoneChat.HasId` | src/hooks/useZoneChat.ts:101 | True iff some listed message has the id |
| `ZoneChat.PrependNew` | src/hooks/useZoneChat.ts:100-103 | A message whose id is already listed leaves the list unchanged; otherwise it is put first; either way its id is then listed |
| `ZoneChat.PrependNewKeepsUnique` | src/hooks/useZoneChat.ts:100-103 | Realtime inserts keep ids unique |
| `ZoneChat.PrependNewIdempotent` | src/hooks/useZoneChat.ts:100-103 | Delivering the same insert twice equals delivering it once |
| `ZoneChat.IsJsSpace` | src/hooks/useZoneChat.ts:118 | The characters `trim` removes: among ASCII exactly tab, line feed, vertical tab, form feed, carriage return and space; beyond ASCII the other white space and line terminators of JavaScript |
| `ZoneChat.TrimStart` | src/hooks/useZoneChat.ts:118 | The result is a suffix of the text, everything dropped is white space, and it does not start with white space |
| `ZoneChat.TrimEnd` | src/hooks/useZoneChat.ts:118 | The result is a prefix of the text, everything dropped is white space, and it does not end with white space |
| `ZoneChat.Trim` | src/hooks/useZoneChat.ts:118 | The result is a contiguous slice of the text with only white space outside it at both ends, and it neither starts nor ends with white space |
| `ZoneChat.IsBlank` | src/hooks/useZoneChat.ts:118 | The trimmed text is empty iff every character is JavaScript white space or a line terminator |
| `ZoneChat.SendGuard` | src/hooks/useZoneChat.ts:118 | A request is made iff there is a user, the zone is truthy (neither null nor the empty string) and the text is not blank; it carries the user, the zone, the untrimmed text and the subchannel, and the text then has a non-white-space character |
| `ZoneChat.ZoneChatState.constructor` | src/hooks/useZoneChat.ts:23-28 | The hook starts with no messages, loading, not sending, no error, more to load, offset 0 |
| `ZoneChat.ZoneChatState.HasZone` | src/hooks/useZoneChat.ts:56 | `zoneId` is truthy: present and of non-zero length |
| `ZoneChat.ZoneChatState.LoadMessages` | src/hooks/useZoneChat.ts:54-85 | With no zone (null or the empty string) nothing changes. Otherwise the page is requested at offset 0 on reset, else at the stored offset. On error, messages, offset and hasMore are kept and the error is recorded. On success a reset gives messages = page and offset = page size; an append gives messages = old ++ page and offset = old + page size. hasMore iff the page had exactly 50 rows |
| `ZoneChat.ZoneChatState.Open` | src/hooks/useZoneChat.ts:87-93 | With no zone (null or the empty string) the list is cleared and nothing else changes. Otherwise the page at offset 0 is requested and loading ends. On error the message is recorded and messages, offset and hasMore are kept. On success the error is cleared, messages = the page, offset = its length, and hasMore iff it had exactly 50 rows |
| `ZoneChat.ZoneChatState.SwitchZone` | src/hooks/useZoneChat.ts:87-114 | The hook re-rendered with a `zoneId`/`subchannel` pair, which it takes over. The same pair changes nothing, because the mount effect depends on exactly that pair. Another pair re-runs the effect, with `Open`'s post-state. Messages, offset, hasMore and the error carry over: a failed reset load keeps the old zone's messages and offset, and switching to no zone clears the list but keeps offset and hasMore |
| `ZoneChat.ZoneChatState.OnInsert` | src/hooks/useZoneChat.ts:98-104 | The list becomes the dedup-prepend of the mapped row; unique ids stay unique; nothing else changes |
| `ZoneChat.ZoneChatState.LoadMore` | src/hooks/useZoneChat.ts:135-138 | Nothing changes when there is no more to load, a load is running or there is no zone. Otherwise the page at the stored offset is requested and loading ends. On error the message is recorded and messages, offset and hasMore are kept. On success the error is cleared, messages = old ++ page, offset = old + page length, and hasMore iff it had exactly 50 rows |
| `ZoneChat.ZoneChatState.Report` | src/hooks/useZoneChat.ts:119-130 | After the store call, `sending` is false again and the error is exactly the one the call reported (cleared first, so None on success); messages, offset, hasMore, loading and the zone are kept |
| `ZoneChat.ZoneChatState.SendMessage` | src/hooks/useZoneChat.ts:116-133 | The request made is `SendGuard`'s for the hook's user, zone and subchannel: sent iff there is a user, a truthy zone and non-blank text after JavaScript trimming, with the untrimmed text. A sent request's error becomes the hook's error and `sending` ends false; an early return changes nothing. The message list, offset, hasMore, loading and the zone are unchanged |
| `RelativeTime.FloorThenFloor` | src/utils/time.ts:7-10 | Flooring by 1000 then 60, by 60000 then 60, and by 3600000 then 24 equals flooring once by the product |
| `RelativeTime.NestedFloors` | src/utils/time.ts:7-10 | The chained floors equal direct division of the milliseconds by 1000, 60000, 3600000 and 86400000 |
| `RelativeTime.Classify` | src/utils/time.ts:14-30 | Each label holds on exactly one range of elapsed milliseconds, covering them all: just now below one minute, including the future; minutes 1 to 59; hours 1 to 23; yesterday for day 1; days 2 to 6; the date from 7 days on |
| `RelativeTime.IsRu` | src/utils/time.ts:12 | True iff the locale has at least two characters and they are 'r' then 'u' |
| `RelativeTime.Decimal` | src/utils/time.ts:18-27 | The printed count is a non-empty string of decimal digits with no leading zero whose value is the number |
| `RelativeTime.Count` | src/utils/time.ts:18-27 | The count text is non-empty exactly for the minutes, hours and days labels; it is ASCII digits whose value is the bucket's count |
| `RelativeTime.Words` | src/utils/time.ts:15-27 | The words are empty only for the date bucket. The Russian words contain Cyrillic letters, and the English ones are ASCII with none. After a count they start with a space |
| `RelativeTime.Render` | src/utils/time.ts:14-30 | Apart from the date, the label contains Cyrillic letters iff Russian is chosen, and the English labels are plain ASCII; the date bucket is the locale's date string |
| `RelativeTime.FormatRelativeTime` | src/utils/time.ts:1-31 | An unparsable date gives ''. For d = now minus then: below 1 min "только что" / "just now"; below 1 h the count d / 1 min followed by " мин назад" / " min ago"; below 1 day d / 1 h and " ч назад" / " h ago"; below 2 days "вчера" / "yesterday"; below 7 days d / 1 day and " дн назад" / " d ago"; from 7 days on the locale's date. The Russian text is chosen iff the locale starts with "ru" |
| `RelativeTime.RecentIsJustNow` | src/utils/time.ts:14-16 | Less than a minute ago, or in the future, reads "только что" for a Russian locale and "just now" otherwise |
| `RelativeTime.NinetyMinutesExample` | src/utils/time.ts:20-22 | Ninety minutes ago reads "1 h ago" in English |

## Left out

- The haversine `calculateDistance` (`src/utils/adaptive-radius.ts:31-50`) uses floating-point trigonometry. Every use of it is a distance parameter that the model assumes nothing about. So NaN and float rounding in comparisons are not modelled.
- JavaScript numbers are modelled as unbounded integers (times, counts, the search radius) and as reals (coordinates, distances, zone radii, and `overallProgress`, where the float `1 / 3` becomes the exact 1/3). Precision loss beyond 2^53 and float rounding are not modelled.
- The asynchronous Supabase calls are not modelled: `trustService.checkMessageRateLimit`, `getKarmaLog`, `incrementActiveDay`, `checkBanStatus`, the zone subscriptions and every other service. Their results reach the model only as parameters.
- React scheduling is not modelled. This covers `useEffect`, the timing of the 10-second and 30-second `setInterval`s, batched state updates, the `loading` flags between an `await` and its continuation, and interleavings of concurrent loads. Each operation is one atomic step.
- The realtime subscription and unsubscription are not modelled, and neither is the permission request in `useLocation`. Only the insert callback and the gate are part of this model.
- Translated strings (`t('spam.…')`) and `toLocaleDateString` appear only as datatypes or opaque parameters.
- `Location.LocationTracker.SendToServer`: the `updateLocation` call is the returned `Upload` value, and whatever it returns is ignored, as in the source. An exception it throws, which the source would catch in `fetchLocation`, is not modelled.
- `ZoneChat.ZoneChatState.LoadMessages`: rows with missing `id`, `text` or other cast-only fields are not modelled, because the source casts them without a default.
- Screens, components, theme, i18n, `useAuth`, `AuthContext`, `useRing`, `useNearbyUsers` and `useSubChannels` are presentation or plumbing and are not part of this model.
