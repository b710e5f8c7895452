# cupid backend: gigs, ratings and the AI-reply parser

This project models the domain core of the cupid dating-assistant backend's request handlers (`Dev/_server/api/views.py`). A dater asks for a *gig*: a cupid fetches items (flowers, chocolate) for a date. Cupids near the pickup place list gigs and accept, complete or drop them. Each side rates the other after a gig, and profiles keep running rating accumulators. The speech-to-text handler passes a transcript to an AI and reads from the reply whether to create a gig and which items it names.

The database tables are held in memory:
- `GigStore.Store` is a class with maps from id to gig, quest, dater and cupid rows, plus the feedback table as a sequence.
- Each handler that writes rows is a method of that class.
- The new row each handler writes is computed by the pure functions of `GigLifecycle` and `Ratings`.
- The read-only handlers and the guards are functions.

The modules:
- `Records` holds the rows, the reply kinds, and the gig status codes 0..3 of the schema.
- `PyText` holds the Python string builtins the parser uses: `str.strip()` with Python's whitespace set, `str.split(sep)` and the substring test `a in b`.
- `SpeechReply` is the reply parser, under two readings: as written and as evidently intended.
- `GigLifecycle` holds the per-row transitions of `create_gig`, `accept_gig`, `complete_gig` and `drop_gig`.
- `Matching` is the `get_gigs` selection.
- `Ratings` holds the accumulators, the feedback tally, the averages, the checks of the rate handlers, and the rate save as written and as intended.
- `GigStore` is the store class; `GigScenario` is one gig run from request through listing, acceptance and completion to a five-star rating.
- `Access` holds the self-or-staff and self-only guards, `get_user`, `delete_user`, and the sign-in decision as written and corrected.
- `Analytics` holds the active-session counters by role and the sum of drop counters.
- `Messages` is `get_five_messages`.

Conventions:
- Instants ("now") are parameters.
- `serializer.is_valid()` is an input flag. A valid serializer persists its row.
- `locations_are_near` is a function parameter `near`.
- The outcomes of the `authenticated_dater` / `authenticated_cupid` helpers and of the framework's `authenticate` are parameters.
- An exception no handler catches answers `ServerError` (500).
- `Gig.objects.all()` is read in ascending id order. The message query orders by `-id`, so `Messages.Recent` reads ids in descending order.
- Ratings are averaged in exact `real` arithmetic.

Where the code and its docstrings or evident design disagree, the model follows the code:
- `accept_gig` sets no status and refuses nothing, although its docstring promises a 400 for a gig already accepted. `GigLifecycle.AcceptLeavesUnclaimed` and `Matching.AcceptedGigStillListed` state the consequences.
- `drop_gig` re-opens the gig; no handler ever writes the Dropped status (`GigLifecycle.NothingWritesDropped`).
- For an unknown email, `sign_in` raises instead of answering "User not found" (row 3 under "Findings").
- The dater average for a dater nobody has rated raises a division by zero (`Ratings.UnratedDaterAverageFails`). The cupid average has a not-found guard first.

## Model

| member | source | states |
|---|---|---|
| Records.StatusCode | Dev/_server/api/migrations/0001_initial.py:51 | the status codes are 0..3, and 0 is exactly Unclaimed |
| Records.StatusOfCode | Dev/_server/api/migrations/0001_initial.py:51 | exactly the integers 0..3 name a status |
| Records.StatusCodeRoundTrip | Dev/_server/api/migrations/0001_initial.py:51 | code and status convert into each other both ways |
| PyText.LStrip | Dev/_server/api/views.py:1344 | the result is a suffix of the input; what was cut is all whitespace; the result does not start with whitespace |
| PyText.RStrip | Dev/_server/api/views.py:1344 | the result is a prefix of the input; what was cut is all whitespace; the result does not end with whitespace |
| PyText.Strip | Dev/_server/api/views.py:1344 | `strip()` leaves no whitespace at either end and never lengthens |
| PyText.StripPadded | Dev/_server/api/views.py:1344 | stripping whitespace padding around an unpadded text gives that text back |
| PyText.StripIdempotent | Dev/_server/api/views.py:1344 | stripping twice is stripping once |
| PyText.Split | Dev/_server/api/views.py:1342-1344 | `split(sep)` yields at least one piece; exactly one piece iff `sep` does not occur; no piece contains `sep` |
| PyText.SplitJoin | Dev/_server/api/views.py:1342-1344 | joining the pieces with `sep` gives the input back |
| PyText.SplitWithoutSep | Dev/_server/api/views.py:1342 | a text without `sep` splits into itself |
| PyText.SplitAtFirst | Dev/_server/api/views.py:1344 | the text before the first `sep` is the first piece, and the rest splits on its own |
| PyText.PrefixIsSubstring | Dev/_server/api/views.py:1340 | a prefix passes Python's `in` test |
| PyText.SubstringChars | Dev/_server/api/views.py:1340 | a text found inside another is no longer than it and uses only its characters |
| PyText.IsSpace | Dev/_server/api/views.py:1344 | the characters `str.isspace` accepts, which `strip()` removes |
| PyText.IsSubstring | Dev/_server/api/views.py:1340 | Python's `p in t`: `p` occurs in `t` as a contiguous slice |
| SpeechReply.ItemsField | Dev/_server/api/views.py:1344 | `line.split(':')[1].strip()` raises exactly when the line has no ':'; otherwise the value is unpadded |
| SpeechReply.GigTest | Dev/_server/api/views.py:1340 | as written, `contains('Create gig: True', response)`, i.e. the reply occurs inside the marker; the intended reading swaps the operands |
| SpeechReply.LineTest | Dev/_server/api/views.py:1343 | as written, the line occurs inside 'Items requested:'; the intended reading swaps the operands |
| SpeechReply.ScanItems | Dev/_server/api/views.py:1341-1344 | the loop over the lines, starting from 'NA': each matching line's field replaces the value, and a matching line without ':' raises (`ScanFailsIff`, `ScanTakesLastMatch`) |
| SpeechReply.Decide | Dev/_server/api/views.py:1340-1352 | no gig when the gig test fails; otherwise an error, no pickup items for 'NA', or a gig with the scanned items |
| SpeechReply.ParseReply | Dev/_server/api/views.py:1340-1352 | the handler's loop over the reply's lines yields the decision `Decide` defines: no gig; gig with no items when the value is 'NA'; gig with items; or an error from a matching line without ':' |
| SpeechReply.ScanFailsIff | Dev/_server/api/views.py:1342-1344 | the loop raises iff some line passing the line test has no ':' |
| SpeechReply.ScanTakesLastMatch | Dev/_server/api/views.py:1341-1344 | the items come from the last matching line, and the 'NA' default survives only when no line matches |
| SpeechReply.GigTestMeansOneLine | Dev/_server/api/views.py:1340-1342 | when `contains('Create gig: True', response)` holds, the response has no line break and is the only line |
| SpeechReply.AsWrittenIgnoresWellFormedReply | Dev/_server/api/views.py:1340 | as written, a reply in the prompt's own format is answered "gig creation not needed" |
| SpeechReply.AsWrittenItemsOnlyFromColon | Dev/_server/api/views.py:1340-1352 | as written, items are produced only for the reply ":" and are then empty |
| SpeechReply.IntendedReadingExtractsItems | Dev/_server/api/views.py:1340-1352 | with the `contains` operands in the intended order, a well-formed reply yields its stripped items, and 'NA' yields no items |
| SpeechReply.CreateGigNeverNA | Dev/_server/api/views.py:1345-1352 | the items a gig is created with are never 'NA' |
| GigLifecycle.NewGig | Dev/_server/api/views.py:730-739 | the new gig is Unclaimed, without cupid or claim/completion time, with both counters 0; it names the caller's dater and the new quest |
| GigLifecycle.Accept | Dev/_server/api/views.py:761-771 | accept sets the cupid and the claim time and adds exactly one to the accept counter; status, drop counter, completion time, dater and quest are unchanged |
| GigLifecycle.Finish | Dev/_server/api/views.py:793-801 | complete sets status Complete and the completion time; every other field is unchanged |
| GigLifecycle.Drop | Dev/_server/api/views.py:827-835 | drop re-opens the gig (Unclaimed, no cupid) and adds exactly one to the drop counter; every other field is unchanged |
| GigLifecycle.MayDrop | Dev/_server/api/views.py:825 | the drop guard: the gig's cupid is the caller, so a gig without a cupid is refused |
| GigLifecycle.NothingWritesDropped | Dev/_server/api/views.py:730-835 | no handler writes the Dropped status |
| GigLifecycle.AcceptLeavesUnclaimed | Dev/_server/api/views.py:761-771 | an accepted gig is still Unclaimed though it has a cupid; a second accept replaces the cupid and counts twice |
| GigLifecycle.DropAfterAccept | Dev/_server/api/views.py:761-835 | the accepting cupid passes the drop guard; dropping afterwards re-opens the gig and keeps the accept count and claim time |
| Matching.NearGigs | Dev/_server/api/views.py:857-862 | the loop keeps only Unclaimed gigs whose pickup location is near the cupid, taken from the rows |
| Matching.Listable | Dev/_server/api/views.py:860-861 | the test of the loop: Unclaimed, and the quest's pickup location near the cupid within the cupid's range |
| Matching.NearGigsComplete | Dev/_server/api/views.py:857-862 | every such gig is kept |
| Matching.NearGigsAppend | Dev/_server/api/views.py:857-862 | the selection keeps the rows' relative order (it distributes over concatenation) |
| Matching.Take | Dev/_server/api/views.py:863 | `s[:count]` is the prefix of length min(count, len) |
| Matching.IdOrder | Dev/_server/api/views.py:856 | the rows are the stored gigs with their ids, in strictly ascending id order |
| Matching.IdOrderComplete | Dev/_server/api/views.py:856 | every stored gig is among the rows |
| Matching.GigsFor | Dev/_server/api/views.py:856-865 | the answer is the first min(`count`, number of matches) of the filtered rows, in order; each is a stored, listable gig |
| Matching.GigsForAllWhenRoom | Dev/_server/api/views.py:856-865 | a count at least the number of ids returns every listable gig |
| Matching.AcceptedGigStillListed | Dev/_server/api/views.py:859-862 | an accepted gig (views.py:761-771) is still offered to other nearby cupids |
| Matching.DroppedGigListedAgain | Dev/_server/api/views.py:859-862 | a dropped gig (views.py:827-835) is offered again where its pickup is near |
| Matching.CompletedGigNotListed | Dev/_server/api/views.py:859-862 | a completed gig (views.py:793-801) is never offered |
| Ratings.Tally | Dev/_server/api/views.py:319-335 | a profile's accumulator counts at most one rating per feedback row |
| Ratings.AddRating | Dev/_server/api/views.py:333-334 | one rating raises the count by one and the sum by its stars (also views.py:538-539); the store's rate ensures are stated through it |
| Ratings.TallyAppendAll | Dev/_server/api/views.py:332-335 | the accumulators of two stretches of feedback add up |
| Ratings.TallyZeroIff | Dev/_server/api/views.py:583 | a profile has count 0 iff no feedback row targets it |
| Ratings.TallyBounds | Dev/_server/api/views.py:332-335 | ratings between lo and hi keep the sum between lo times the count and hi times the count |
| Ratings.Average | Dev/_server/api/views.py:377 | `rating_sum / rating_count` (also views.py:584) is defined iff count > 0, and the average times the count is the sum |
| Ratings.AverageWithinStars | Dev/_server/api/views.py:309 | with 1 to 5 stars per rating, as documented, the average lies in [1, 5] |
| Ratings.TallyAppend | Dev/_server/api/views.py:332-335 | one more feedback row changes only its target's accumulator, by its stars |
| Ratings.SaveRating | Dev/_server/api/views.py:330-335 | the intended save stores the row, adds it to the target's accumulator only, and keeps accumulators consistent with the feedback |
| Ratings.SaveRatingAsWritten | Dev/_server/api/views.py:330-335 | as written (also views.py:535-540) the row is stored, no accumulator changes, and the reply is a server error |
| Ratings.AsWrittenLosesRating | Dev/_server/api/views.py:333-334 | as written (also views.py:538-539), the saved rating is missing from its target's accumulator |
| Ratings.RatedParty | Dev/_server/api/views.py:319 | the rated side (views.py:319 for daters, 524 for cupids) of a gig is its dater, or its possibly absent cupid |
| Ratings.RateCheck | Dev/_server/api/views.py:318-337 | for both rate handlers (also views.py:523-542): a missing gig or a gig without a cupid raises; a target other than the gig's party is forbidden; an invalid feedback is a bad request; the row is saved in exactly the remaining case |
| Ratings.DaterAvgRating | Dev/_server/api/views.py:376-377 | a found dater gets sum/count when rated and a server error when not; failed lookups pass through |
| Ratings.CupidAvgRating | Dev/_server/api/views.py:582-584 | not found iff the lookup fails so or no feedback targets the cupid; for a cupid some feedback names, exactly sum/count when the count is positive and a server error for count 0 |
| Ratings.CupidAverageOfLedger | Dev/_server/api/views.py:582-584 | with consistent accumulators the cupid average never raises: it is not found or it is the average of the stored ratings |
| Ratings.UnratedDaterAverageFails | Dev/_server/api/views.py:377 | with consistent accumulators, a dater nobody rated makes the dater average raise |
| GigStore.Store.constructor | Dev/_server/api/migrations/0001_initial.py:49-55 | an empty gig table over unrated profiles is consistent |
| GigStore.Store.CreateGig | Dev/_server/api/views.py:724-740 | not found without a dater profile; the quest is saved before the gig, and kept when the gig fails; the gig gets a fresh id and `NewGig`; nothing else changes |
| GigStore.Store.AcceptGig | Dev/_server/api/views.py:760-772 | not found for an unknown gig; otherwise that one gig becomes `Accept` of itself when the row validates; nothing else changes |
| GigStore.Store.CompleteGig | Dev/_server/api/views.py:792-802 | not found for an unknown gig; otherwise that one gig becomes `Finish` of itself when the row validates; nothing else changes |
| GigStore.Store.DropGig | Dev/_server/api/views.py:824-836 | not found, server error without a cupid profile, forbidden unless the gig's cupid is the caller (a gig without a cupid included), then `Drop`; the gig is untouched on every refusal |
| GigStore.Store.GetGigs | Dev/_server/api/views.py:854-865 | server error for a user without a cupid profile; otherwise the loop's answer is `GigsFor` of the stored gigs |
| GigStore.Store.RateDater | Dev/_server/api/views.py:315-337 | the reply is `RateCheck`'s verdict; on success the row is appended and only the target dater's accumulator gains the rating; consistency is kept |
| GigStore.Store.RateCupid | Dev/_server/api/views.py:520-542 | as `RateDater`, for the gig's cupid |
| GigScenario.FlowersRun | Dev/_server/api/views.py:706-865 | a requested, accepted and completed gig, rated five stars, gives its cupid the average 5; after acceptance the gig is still listed |
| Access.GuardsCompared | Dev/_server/api/views.py:158 | the self-or-staff guard (also views.py:187) admits exactly the user themselves or staff; the self-only guard (views.py:244, 881) is strictly narrower |
| Access.MayActOn | Dev/_server/api/views.py:158 | the guard of views.py:158 and :187: the URL names the caller, or the caller is staff |
| Access.MayActOnSelfOnly | Dev/_server/api/views.py:244 | the guard of views.py:244 and :881: the URL names the caller |
| Access.GetUser | Dev/_server/api/views.py:158-169 | forbidden iff another user and not staff; then not found, then bad request without a profile; success returns the stored user |
| Access.DeleteUser | Dev/_server/api/views.py:187-191 | forbidden iff another user and not staff; not found, or exactly that user removed with the others unchanged |
| Access.DeleteOwnAccount | Dev/_server/api/views.py:187-191 | everyone may delete themselves; only staff may delete another user |
| Access.SignInReason | Dev/_server/api/views.py:138-141 | the strings of views.py:139 and :141; `SignInReasonsDiffer` proves they tell the two cases apart |
| Access.SignInReasonsDiffer | Dev/_server/api/views.py:138-141 | the two reasons distinguish a registered email from an unknown one |
| Access.WithEmail | Dev/_server/api/views.py:130 | the users registered with the email, which the lookup of views.py:130 and the filter of :138 query |
| Access.SignInAsWritten | Dev/_server/api/views.py:130-142 | the lookup raises unless exactly one user has the email; a sign-in is that user; a refusal says "Incorrect password" |
| Access.AsWrittenNeverSaysNotFound | Dev/_server/api/views.py:130-141 | as written, "User not found" is never answered, and an unknown email raises |
| Access.SignInChecked | Dev/_server/api/views.py:130-142 | with the existence test first, an unknown email is refused with "User not found" |
| Access.CheckedReasonMeansUnknown | Dev/_server/api/views.py:130-142 | corrected: "User not found" iff no user has the email; "Incorrect password" iff exactly one has it and authentication failed |
| Analytics.SessionCount | Dev/_server/api/views.py:1096-1102 | for both counters (also views.py:1120-1126): raises iff some unexpired session's user cannot be found; otherwise the count is the number of unexpired sessions whose user has the role |
| Analytics.Active | Dev/_server/api/views.py:1096 | the filter `expire_date >= now` |
| Analytics.Unresolved | Dev/_server/api/views.py:1099-1101 | an unexpired session whose user lookup raises: no user id in it, or an id no user has (also views.py:1123-1125) |
| Analytics.Counted | Dev/_server/api/views.py:1098-1101 | an unexpired session whose user resolves and has the role counted |
| Analytics.ActiveCount | Dev/_server/api/views.py:1096 | the number of sessions the `expire_date >= now` filter keeps, as the size of the set of their positions |
| Analytics.CountActiveSessions | Dev/_server/api/views.py:1096-1102 | the counting loop answers `SessionCount` |
| Analytics.RolesPartitionSessions | Dev/_server/api/views.py:1096-1126 | when every session resolves, the dater, cupid and manager counts add up to the unexpired sessions |
| Analytics.SumDroppedCounts | Dev/_server/api/views.py:1188-1192 | the loop answers the sum of the drop counters |
| Analytics.DroppedSum | Dev/_server/api/views.py:1191-1192 | the sum of the drop counters of the gigs, in their order |
| Analytics.DropAddsOne | Dev/_server/api/views.py:1188-1192 | one drop (views.py:827-835) raises the sum by exactly one |
| Analytics.AcceptKeepsSum | Dev/_server/api/views.py:1188-1192 | accepting or completing a gig leaves the sum alone |
| Messages.Recent | Dev/_server/api/views.py:248 | at most n of the owner's stored messages, in strictly descending id order |
| Messages.RecentAreNewest | Dev/_server/api/views.py:248 | an owned message left out means the result is full and every returned id is newer |
| Messages.FewMessagesAllReturned | Dev/_server/api/views.py:248 | a user with at most five messages gets all of them |
| Messages.GetFiveMessages | Dev/_server/api/views.py:244-253 | forbidden iff another user; not found for an unknown user; otherwise exactly `Recent(table, caller, hi, 5)`, the caller's five newest messages (see `RecentAreNewest`); never a bad request |

## Left out

- The object-relational mapper, the serializers and the `helpers` module are not part of this model. Serializer validity is an input flag. `initialize_serializer` returning nothing is the flag `hasProfile`. `authenticated_dater` and `authenticated_cupid` are the parameter `resolved`. `locations_are_near` is the parameter `near`.
- GigStore.Store.AcceptGig: the serializer's key check on `cupid` is modelled as "the caller has a cupid profile"; other validation is the flag.
- GigLifecycle.NewGig: `create_gig` passes no request time, and the schema declares no default for it; the model class and serializer that would supply one are not part of this model. The gig takes the creation instant.
- The location write of `helpers.update_user_location` (views.py:315, :520, :724, :855) is not modelled, and neither is `get_location_string`. Profiles keep their stored `location`. So `GigStore.Store.GetGigs` calls `near` with the cupid's stored location, not the one the handler refreshes at views.py:855 just before the test at :861.
- GigStore.Store.CreateGig: its ensures `daters == old(daters)` holds only because the write of the calling dater's location (views.py:724) is left out.
- GigStore.Store.RateDater: its ensures `cupids == old(cupids)` holds only because the write of the calling cupid's location (views.py:315) is left out.
- GigStore.Store.RateCupid: its ensures `daters == old(daters)` holds only because the write of the calling dater's location (views.py:520) is left out.
- GigStore.Store.GetGigs: it modifies nothing, which holds only because the write of the cupid's location (views.py:855) is left out.
- External services are foreign calls without local logic and are left out: the AI responder, speech recognition and its file write, the Yelp lookups, SendGrid/Twilio notification.
- The pickup address from Yelp and the quest and gig saves at the end of `speech_to_text` are left out. `SpeechReply` stops at the decision to create a gig with the items found.
- Sessions, `authenticate` and `login` are framework code. `Session.get_decoded` is the decoded `authUser` field; `authenticate` is the flag `authenticated`.
- Concurrency is not modelled: the handlers take no locks, and the model runs one request at a time.
- The manager rate handlers always end in their `except`. `get_gig_rate` and `get_gig_drop_rate` get there because `datetime.timedelta` is looked up on the class `datetime`. `get_gig_complete_rate` gets there by a division by zero when no gig exists, and otherwise by `.json()` called on a float. Each `except` puts the exception object itself in the response body; what the JSON renderer then answers is framework behaviour and is not modelled. Only the drop-counter sum inside `get_gig_drop_rate` is modelled (`Analytics.SumDroppedCounts`), over a given list of gigs; the 24-hour window filter is left out.
- Handlers that only format or forward serializer data are left out: the transfer stubs, `save_card`, `save_bank_account`, `calendar`, `set_*_profile`, `get_*_profile`, `suspend`/`unsuspend`, the counts, the user lists, `send_chat_message`, `create_user`, the Yelp lookups behind the self-only guard, `get_dater_ratings`, `get_cupid_ratings`.
- Access.DeleteUser: the cascade to profiles, gigs and feedback is not modelled; only the user row goes.
- Dev/_server/api/urls.py is a routing table and is not modelled. It names `get_messages` and `get_cupid_gigs`, which views.py does not define.
- The schema in Dev/_server/api/migrations/0001_initial.py differs from the fields the handlers use: feedback has `user` rather than `owner`/`target`, profiles store `average_rating` rather than a sum and count, and `accepted_count`, `dropped_count` and `gig_range` are absent. The model follows the handlers and uses the schema only for the status codes and the nullable cupid.
- The 200/201 distinction and the response bodies of errors are not kept.
- The database's iteration order for `Gig.objects.all()` is unspecified; the model fixes ascending id order.
- The order in which `get_five_messages` resolves its queryset is not modelled; the `Message.DoesNotExist` handler around it can never fire.

## Findings

| source | as written | input that shows it | evidently intended | confidence | as-written member | corrected member |
|---|---|---|---|---|---|---|
| Dev/_server/api/views.py:1340-1343 | `contains('Create gig: True', response)` tests whether the reply occurs inside the marker, and likewise for each line and 'Items requested:' | the reply "Create gig: True\nItems requested: Flowers" is answered "gig creation not needed" | test whether the marker occurs inside the reply (and inside the line) | high, not executed | SpeechReply.AsWrittenIgnoresWellFormedReply | SpeechReply.IntendedReadingExtractsItems |
| Dev/_server/api/views.py:317-335 | `target` is the integer id from the request, so `target.rating_count += 1` raises after the feedback row is saved | `rate_dater` with `dater_id` 7 on a gig of dater 7 saves the row and answers 500; the dater's accumulators stay put | increment the accumulators of the target's profile | high, not executed | Ratings.AsWrittenLosesRating | Ratings.SaveRating |
| Dev/_server/api/views.py:130-141 | `User.objects.get(email=...)` runs before the existence test, so an unknown email raises | `sign_in` with an email no user has answers 500, never "User not found" | test existence first and answer "User not found" | high, not executed | Access.AsWrittenNeverSaysNotFound | Access.CheckedReasonMeansUnknown |
