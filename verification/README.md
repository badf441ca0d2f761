# BGMI tournament site — a Dafny model of its registration and admin logic

This project models the decision logic of a tournament-registration web site for
the mobile games BGMI and Free Fire:

- the two payment routes:
  - order creation, which gates on capacity and then asks the payment gateway for a payment request;
  - payment verification, which checks the gateway signature, gates on capacity again, saves the team and raises a registration counter;
- the participant-id generator, validator and extractor;
- the three document schemas (tournament, team, participant), with their enums, defaults and required fields;
- the admin login decision;
- the `.env.local` reader shared by the two admin scripts;
- the pure list computations behind five pages:
  - the public tournament listing;
  - the admin dashboard;
  - the team-registrations page with its CSV export;
  - the tournament manager's delete handler;
  - the FAQ page.

Everything is modelled as immutable datatypes and pure functions. The database is a
`Store` value threaded through the verification route. Every step that can throw
(connecting, looking up, `Team.create`, `tournament.save()`) is an explicit fault
flag, so the two non-atomic writes can be reasoned about separately. Things the
code takes from outside are parameters:

- the keyed hash, taken as a function over the signed message;
- the password comparison;
- the date formatter;
- the random draw;
- the clock;
- the user's answer to the confirmation prompt;
- the gateway's and the server's replies.

| file | module | what it holds |
|---|---|---|
| wrappers.dfy | Wrappers | `Option`, `Result` |
| text.dfy | Text | ASCII case mapping, `trim`, `substr(-n)`, decimal printing, template interpolation |
| strings.dfy | Strings | `split`/`join` on one character and their round trips, occurrence counts |
| seqs.dfy | Seqs | `filter`, subsequences, de-duplication in first-appearance order |
| schemas.dfy | Schemas | the three schemas, their enums, and the creation functions that apply defaults and checks |
| capacity.dfy | Capacity | the mode-dependent capacity gate shared by both payment routes |
| signature.dfy | Signature | the signed message and the signature check |
| participant_ids.dfy | ParticipantIds | participant-id generation, validation, extraction |
| create_order.dfy | CreateOrder | `POST /api/payment/create-order` |
| verify_payment.dfy | VerifyPayment | `POST /api/payment/verify` and invariants over request sequences |
| admin_login.dfy | AdminLogin | `POST /api/auth/simple-login` |
| env_file.dfy | EnvFile | the `.env.local` line parser |
| tournament_listing.dfy | TournamentListing | listing filters, "Slots Full", empty states |
| dashboard.dfy | Dashboard | dashboard statistics, recent rows, row limits, status badge |
| team_registrations.dfy | TeamRegistrations | CSV export, payment-status counts, badge |
| manage_tournaments.dfy | ManageTournaments | mock-id test and delete-by-id |
| faq.dfy | Faq | FAQ categories, category filter, accordion |

## Model

| member | source | states |
|---|---|---|
| VerifyPayment.Verify | app/api/payment/verify/route.ts:9-176 | The stored tournaments keep their keys. The participant collection is never written, and at most one participant record is built. Unless the team document was written, nothing in the store changes. A write adds exactly one team. The answer is a confirmation exactly when the team was written and the counter save did not throw. |
| VerifyPayment.RejectionOrder | app/api/payment/verify/route.ts:28-111 | Each 4xx rejection fires exactly when every earlier stage passed and its own stage failed. The stages run in the order signature (400), tournament lookup (404), capacity (400 "Tournament is full"), team fields (400). A connect fault or an unset signing secret answers 500 before the signature is compared. No 4xx rejection changes the store. |
| VerifyPayment.TeamDataToSave | app/api/payment/verify/route.ts:78-88 | The saved document is the payload with payment status "completed" and the gateway payment id. In team mode names and phone are untouched. In solo mode the leader name is the first player's name, or "Solo Player" when that name is missing or empty. The team name is the interpolated first name plus " (Solo)", and "undefined (Solo)" when there is no name. The phone is the submitted leader phone, else the first player's phone, else the empty string, each skipped when missing or empty. |
| VerifyPayment.SuccessEffect | app/api/payment/verify/route.ts:114-122 | A confirmed registration appends one paid team with the gateway payment id and the tournament id. The team is the one the schema creates from the saved document. Each submitted player keeps name, in-game id and role, in order. The leader email and WhatsApp number are the submitted ones. The phone is the saved document's, which is the submitted one in team mode. The registration raises the mode-selected counter by exactly one and leaves the other counter, the mode and every other tournament unchanged. |
| VerifyPayment.SavedNames | app/api/payment/verify/route.ts:85-111 | In team mode the saved team and leader names are the submitted ones. In solo mode they are derived from the first player. |
| VerifyPayment.Commit | app/api/payment/verify/route.ts:114-122 | Once the checks have passed, the answer is a confirmation exactly when `Team.create` accepts the document and the save does not throw. A rejected create changes nothing. A successful create adds exactly one team. |
| VerifyPayment.Save | app/api/payment/verify/route.ts:116-155 | After the team write, a throwing `tournament.save()` leaves the store as the team write left it and builds no participant. Otherwise the answer is a confirmation, the teams and participants stay as written, and at most one participant record is built. |
| VerifyPayment.SaveFailureLeavesTeam | app/api/payment/verify/route.ts:114-175 | When the counter save throws after the team was written, the answer is 500 "Failed to verify payment". The paid team stays stored and every tournament, counters included, is as before. |
| VerifyPayment.ParticipantRecord | app/api/payment/verify/route.ts:124-155 | Exactly one record is built, and only for a confirmed team with players. It is for the first player, with status "JOINED", the generated participant id, the leader email, and the tournament and team ids. It is never stored. The participant schema would refuse it, because it has no role. |
| VerifyPayment.VerifyKeepsCapacity | app/api/payment/verify/route.ts:52-122 | If every tournament's mode-selected counter is within its bound before a call, it still is afterwards, whatever the outcome. |
| VerifyPayment.RunAllKeepsCapacity | app/api/payment/verify/route.ts:52-122 | The capacity invariant survives any sequence of requests handled one after another. |
| VerifyPayment.VerifyKeepsCountsWithoutSaveFault | app/api/payment/verify/route.ts:114-122 | When the save does not throw, every tournament's mode-selected counter keeps equalling its number of paid teams. |
| VerifyPayment.SaveFaultBreaksCounts | app/api/payment/verify/route.ts:114-122 | A throwing save after a successful team write breaks that equality: the paid team is counted by nobody. |
| VerifyPayment.PaidTeamsAppend | app/api/payment/verify/route.ts:114 | Appending one team raises the paid-team count of a tournament by one exactly when that team is paid and belongs to it. |
| Capacity.MaxCapacity | app/api/payment/verify/route.ts:55 | The bound is `maxTeams` in team mode. In solo mode it is `maxPlayers`, falling back to `maxTeams` when `maxPlayers` is missing or 0. |
| Capacity.IsFull | app/api/payment/verify/route.ts:53-68 | In team mode the tournament is full exactly when the team counter reached `maxTeams`. In solo mode it is full when the player counter reached `maxPlayers`, or `maxTeams` when `maxPlayers` is unset or 0. |
| Capacity.NumberOr | app/api/payment/verify/route.ts:55 | JavaScript's logical or on an optional number: the first operand unless it is missing or 0. |
| Capacity.SoloAtVerifyIff | app/api/payment/verify/route.ts:53 | Solo mode at verification holds exactly when the mode is four letters spelling "solo" in any letter case. |
| Capacity.OrderDetectionIsNarrower | app/api/payment/create-order/route.ts:24 | Every mode the order route treats as solo is solo at verification. "solo" and "SOLO" are solo only at verification. |
| Capacity.Increment | app/api/payment/verify/route.ts:117-121 | Exactly the counter the mode selects goes up by one. The other counter, the bound and every other field stay as they were. |
| Capacity.IncrementWhenAdmittedStaysWithin | app/api/payment/verify/route.ts:68-121 | A registration the gate admitted never pushes the counter past the bound. |
| Capacity.ZeroCapacityIsFull | app/api/payment/verify/route.ts:68 | With non-negative counters, a zero bound always reports full. |
| CreateOrder.CreateOrderWith | app/api/payment/create-order/route.ts:6-99 | The gateway is asked exactly when the database answered, the tournament exists, it is not full, and both gateway credentials are set. The answer is 404 exactly for an unknown tournament and 400 "Tournament is full" exactly for a full one. A connect or lookup fault answers 500 with that error's message and sends nothing. Missing credentials answer 500 naming them. A gateway failure answers 500 with the gateway's message. The order is created exactly when the gateway accepts, with the entry fee as amount, the currency "INR" and the gateway's ids. The request carries the purpose "Tournament: " + title, the printed fee, the buyer name and the leader email. |
| CreateOrder.CreateOrder | app/api/payment/create-order/route.ts:23-42 | With the database answering and the tournament found, the route answers "Tournament is full" exactly when the mode is spelled "Solo" and the player counter reached `maxPlayers`, or `maxTeams` when that is unset or 0, or the mode is anything else and the team counter reached `maxTeams`. |
| CreateOrder.MissingConfig | app/api/payment/create-order/route.ts:44-45 | No credential is reported missing exactly when both are set and non-empty. |
| CreateOrder.AmountText | app/api/payment/create-order/route.ts:55 | `amount.toString()` of an integer: its decimal digits, with a leading minus for a negative amount. |
| CreateOrder.BuyerName | app/api/payment/create-order/route.ts:56 | The buyer name is the team name when it is set and non-empty, and "Tournament Participant" otherwise. It is never empty. |
| CreateOrder.OrderGateDisagreesWithVerify | app/api/payment/create-order/route.ts:24-42 | A tournament with mode "solo" whose player slots are full still gets a payment request from the order route, although the verification route will refuse it as full. |
| CreateOrder.AlignedOrderAgreesWithVerify | app/api/payment/create-order/route.ts:23-42 | With the verification route's solo test, an order is refused as full exactly when verification would refuse the same tournament. |
| Signature.Message | lib/razorpay.ts:15 | The signed text is the order id, a vertical bar, and the payment id, laid out at those positions. |
| Signature.VerifyPaymentSignature | lib/razorpay.ts:9-22 | A signature is accepted exactly when it is the keyed hash of a text laid out as the order id, a vertical bar and the payment id. |
| Signature.MessageDeterminesPayment | lib/razorpay.ts:15 | For a fixed order id, the signed text determines the payment id. |
| Signature.MessageInjective | lib/razorpay.ts:15 | When order ids contain no vertical bar, the signed text determines both ids. |
| Signature.SignatureBindsPayment | lib/razorpay.ts:9-22 | Under a collision-free keyed hash, a signature issued for one payment of an order fails for any other payment of that order. |
| Signature.BarInIdsCollides | lib/razorpay.ts:15 | Ids containing a vertical bar can share a signed message, so two different id pairs verify alike under any key. |
| ParticipantIds.TournamentSuffix | lib/participant-utils.ts:16-18 | The suffix is the last four characters of the id, or the whole id when it has at most four. |
| ParticipantIds.RandomPart | lib/participant-utils.ts:13 | The random part is the first four characters of the draw's digits, each upper-cased. It is shorter when the draw has fewer digits. For base-36 digits it holds no lower-case letter and no hyphen. |
| ParticipantIds.TimePart | lib/participant-utils.ts:12 | The time part is the tail of the printed clock: its last four digits, or all of them when the clock prints shorter. It has four digits exactly when the clock reads at least 1000. |
| ParticipantIds.Generate | lib/participant-utils.ts:11-24 | Read back at its hyphens, the id is "BGMIP", the pieces of the suffix, the random part and the time part. It has at most 20 characters. |
| ParticipantIds.ValidateIsPattern | lib/participant-utils.ts:29-32 | The length-and-position validator accepts exactly the strings matching `^BGMIP-[A-Z0-9]{1,8}-[A-Z0-9]{4}-[0-9]{4}$` under the `i` flag. |
| ParticipantIds.Validate | lib/participant-utils.ts:29-32 | The validator accepts exactly the strings matching `^BGMIP-[A-Z0-9]{1,8}-[A-Z0-9]{4}-[0-9]{4}$` case-insensitively. |
| ParticipantIds.GeneratedIsValidIff | lib/participant-utils.ts:11-32 | A generated id validates exactly when the tournament id is non-empty and its suffix is alphanumeric, the draw gave at least four digits, and the clock reads at least 1000. |
| ParticipantIds.DemoTokenIsInvalid | lib/participant-utils.ts:29-32 | A token whose third segment has six characters, like "BGMIP-DEMO-123456-1234", is rejected. |
| ParticipantIds.ExtractTournament | lib/participant-utils.ts:37-43 | Extraction succeeds exactly when the token has a hyphen. It then returns the text between the first and the second hyphen, or everything after the first hyphen when there is no second. Otherwise it fails with "Invalid participant token format". |
| ParticipantIds.SecondSegmentIsExtracted | lib/participant-utils.ts:37-43 | Conversely, whatever a token holds between its first and second hyphen is what extraction returns. |
| ParticipantIds.SplitToken | lib/participant-utils.ts:23-38 | An id splits at its hyphens into the prefix, the pieces of the suffix, the random part and the time part. |
| ParticipantIds.ExtractGenerated | lib/participant-utils.ts:11-43 | Extracting from a generated id always succeeds. It gives the suffix back exactly when the suffix has no hyphen, and otherwise the suffix's text before its first hyphen. |
| ParticipantIds.ExtractCutsAtHyphen | lib/participant-utils.ts:16-41 | When the suffix is `head-tail` and `head` has no hyphen, extraction yields `head`. |
| ParticipantIds.ExtractLosesHyphenatedSuffix | lib/participant-utils.ts:16-41 | For the tournament id "demo-1", extraction yields "mo" instead of the suffix "mo-1". |
| Schemas.ParseGame | models/Tournament.ts:28-32 | Only "BGMI" and "FreeFire" are accepted, and each parses to the game that prints back as it. |
| Schemas.ParseTournamentStatus | models/Tournament.ts:61-65 | Only "upcoming", "ongoing", "completed" and "cancelled" are accepted, and each parses back to itself. |
| Schemas.ParsePaymentStatus | models/Team.ts:61-65 | Only "pending", "completed" and "failed" are accepted, and each parses back to itself. |
| Schemas.ParseParticipantStatus | models/Participant.ts:49-53 | Only "REGISTERED", "JOINED", "DROPPED" and "BANNED" are accepted, and each parses back to itself. |
| Schemas.CreateTournament | models/Tournament.ts:23-85 | A tournament is created exactly when the required fields are present (strings non-empty), the game parses, and the status is absent or parses. Title, game, description, prize pool, maximum teams and players, dates, rules, map type, mode and image are those given. Entry fee and both counters default to 0, the status to "upcoming", and the creation time to now. |
| Schemas.SchemaDoesNotBoundCounters | models/Tournament.ts:46-60 | The schema accepts a tournament whose team counter already exceeds `maxTeams`. |
| Schemas.CreateTeam | models/Team.ts:22-71 | A team is created exactly when the team name, leader name, leader email, leader phone and tournament are filled, every player has a filled name and in-game id, and the payment status is absent or parses. The team and leader fields, WhatsApp number, tournament and payment id are those given. Each player keeps name, in-game id and role, in order. The payment status defaults to "pending" and the date to now. |
| Schemas.ToPlayer | models/Team.ts:22-32 | An acceptable player becomes a valid stored player. |
| Schemas.CreateParticipant | models/Participant.ts:17-66 | A participant is valid exactly when every required path is filled and the status is absent or parses. The status defaults to REGISTERED, the team-leader flag to false and the join time to now. `paymentId` is optional. |
| Schemas.InsertParticipant | models/Participant.ts:28-32 | Validation failure and an existing participant id are reported exactly in their cases. Success appends one record to the existing ones and keeps participant ids unique. |
| AdminLogin.Login | app/api/auth/simple-login/route.ts:6-85 | The route always answers. The environment credentials log in as "Admin Owner", role "admin", whatever the database holds. Without a matching environment, the answer depends on the database. A missing user or stored password, or a failed comparison, gives 401. A wrong role after a matching password gives 403. A database failure gives 500. Otherwise the stored user logs in. |
| AdminLogin.DatabaseCatch | app/api/auth/simple-login/route.ts:67-77 | The inner catch answers 500 unless the environment credentials match. |
| AdminLogin.DatabaseDownLoginIff | app/api/auth/simple-login/route.ts:14-77 | With the database down, login succeeds exactly when both environment variables are set, the email matches up to case, and the password matches exactly. |
| AdminLogin.EnvLoginIgnoresDatabase | app/api/auth/simple-login/route.ts:19-29 | Matching environment credentials give the same answer whatever the database holds. |
| AdminLogin.ForbiddenOnlyAfterPassword | app/api/auth/simple-login/route.ts:43-57 | A 403 is only ever the answer to a stored user whose password comparison succeeded. |
| EnvFile.ParseLine | scripts/create-admin.js:11-16 | A line is skipped exactly when it has no "=" or starts with one. Otherwise the key is the untrimmed text before the first "=", and the value is the trimmed rest with every later "=" kept. |
| EnvFile.LineBinds | scripts/update-admin-password.js:12-14 | A line `key=rest`, with a non-empty key free of "=", binds the key to `rest` trimmed. |
| EnvFile.BoundIffDefined | scripts/create-admin.js:11-16 | A key is bound exactly when some line defines it. |
| EnvFile.LastOccurrenceWins | scripts/update-admin-password.js:11-16 | A bound key holds the value of the last line that defines it. |
| EnvFile.ParseJoinedLines | scripts/create-admin.js:11 | Content assembled from line-feed-free lines is read line by line. |
| EnvFile.ParseEnv | scripts/create-admin.js:10-16 | A key is bound exactly when some line of the file defines it, and then to the value of the last line that does. |
| TournamentListing.FilterTournaments | app/tournaments/page.tsx:84-89 | A tournament is shown exactly when game, mode and status each equal their selection or the selection is "All". |
| TournamentListing.FilterKeepsOrderAndCopies | app/tournaments/page.tsx:84-89 | The shown list is a subsequence of the catalogue and keeps every copy of each matching tournament. |
| TournamentListing.AllFiltersShowEverything | app/tournaments/page.tsx:55-89 | With every selection at "All" the whole catalogue is shown. |
| TournamentListing.MissingModeOnlyMatchesAll | app/tournaments/page.tsx:86 | A tournament without a mode survives only the mode selection "All". |
| TournamentListing.RegisterLabel | app/tournaments/page.tsx:303-310 | The link reads "Slots Full" exactly when the team counter has reached `maxTeams`, and "Register Now" otherwise. |
| TournamentListing.SlotsFullIgnoresPlayers | app/tournaments/page.tsx:303-310 | The label does not depend on the mode or on the player counters. |
| TournamentListing.ListingView | app/tournaments/page.tsx:229-344 | Cards show exactly when something matches. "No tournaments available" shows exactly for an empty catalogue. "No match" shows exactly for a non-empty catalogue with no match. |
| TournamentListing.ClearFiltersShowsAll | app/tournaments/page.tsx:333-338 | After "Clear Filters" on the no-match message, every tournament is shown. |
| Dashboard.RowCount | app/admin/dashboard/page.tsx:41 | The count for a row is the team counter, or the player counter when the team counter is 0. |
| Dashboard.ComputeStats | app/admin/dashboard/page.tsx:40-48 | The tournament total is the list length and bounds the active count. The active count is 0 exactly when nothing is ongoing, and equals the total exactly when everything is. |
| Dashboard.OngoingCount | app/admin/dashboard/page.tsx:40 | The ongoing filter is empty exactly when nothing is ongoing, and full exactly when everything is. |
| Dashboard.StatsAdd | app/admin/dashboard/page.tsx:41-42 | The team and revenue totals of two lists put together are the sums of the parts. |
| Dashboard.UniformFeeRevenue | app/admin/dashboard/page.tsx:41-42 | When every tournament charges the same fee, revenue is that fee times the team total. |
| Dashboard.TotalsNonNegative | app/admin/dashboard/page.tsx:41-42 | Non-negative counters and fees give non-negative totals. |
| Dashboard.RowCountIsModeCounter | app/admin/dashboard/page.tsx:41 | When only the counter the mode selects has moved, the dashboard counts exactly that counter. |
| Dashboard.RecentRows | app/admin/dashboard/page.tsx:207 | The recent table holds the first min(3, n) tournaments, in order. |
| Dashboard.RowLimit | app/admin/dashboard/page.tsx:225 | The denominator is `maxTeams`, or `maxPlayers` when `maxTeams` is 0. |
| Dashboard.RowLimitIgnoresSoloLimit | app/admin/dashboard/page.tsx:225 | A solo tournament with both limits shows the team limit, although the payment gate uses the player limit. |
| Dashboard.StatusBadge | app/admin/dashboard/page.tsx:215-221 | The badge reads "Active" exactly for "ongoing", and "Upcoming" for every other status. |
| TeamRegistrations.Cells | app/admin/teams/page.tsx:144-152 | A data row has one cell per header column, filled in header order: team name, leader name, leader email, leader phone, the players cell, the payment-status value and the formatted registration date. |
| TeamRegistrations.PlayerEntries | app/admin/teams/page.tsx:149 | There is one "name (inGameId)" entry per player, in order. |
| TeamRegistrations.Quoted | app/admin/teams/page.tsx:156 | Every data cell is wrapped in double quotes, with nothing escaped. |
| TeamRegistrations.RowLines | app/admin/teams/page.tsx:156 | There is one row line per team, in order. |
| TeamRegistrations.CsvLines | app/admin/teams/page.tsx:154-157 | The lines are the unquoted header followed by one line per team. |
| TeamRegistrations.ExportCsv | app/admin/teams/page.tsx:154-157 | The file opens with the header line. That line is the whole file when there are no teams, and is otherwise followed by a line feed. |
| TeamRegistrations.HeaderColumns | app/admin/teams/page.tsx:143-155 | The header line splits back into the seven column names. |
| TeamRegistrations.ExportLines | app/admin/teams/page.tsx:154-157 | Without line feeds in the cells, the export splits into exactly 1 + (number of teams) lines: the header, then each team's row. |
| TeamRegistrations.RowFieldCount | app/admin/teams/page.tsx:156 | A row reads back as one field per cell plus one more per comma inside the cells, since quoting escapes nothing. |
| TeamRegistrations.RowRoundTrip | app/admin/teams/page.tsx:156 | Without commas in the cells, a row splits back into exactly its quoted cells. |
| TeamRegistrations.RowKeepsOut | app/admin/teams/page.tsx:156 | A row holds no character other than commas and quotes that its cells do not hold. |
| TeamRegistrations.QuotedOccurrences | app/admin/teams/page.tsx:156 | Quoting adds no character other than the quote. |
| TeamRegistrations.PlayersCellEntries | app/admin/teams/page.tsx:149 | When no name or in-game id contains ";", the players cell splits at ";" into one piece per player. |
| TeamRegistrations.CountTeams | app/admin/teams/page.tsx:195-206 | The total is the number of teams. The completed and pending counts add up to the total minus the failed teams. |
| TeamRegistrations.CountTeamsSnoc | app/admin/teams/page.tsx:195-206 | The counters start at zero. One more team raises the total by one, the completed count by one exactly when its payment is completed, and the pending count by one exactly when it is pending. |
| TeamRegistrations.StatusPartition | app/admin/teams/page.tsx:195-206 | Every team is in exactly one of the three payment states. |
| TeamRegistrations.Badge | app/admin/teams/page.tsx:237-247 | The badge reads "Paid" exactly for a completed payment, and "Pending" otherwise. |
| TeamRegistrations.FailedLooksPendingButIsNotCounted | app/admin/teams/page.tsx:200-247 | A failed payment wears the "Pending" badge, is not in the pending count, and makes the two counts add up to less than the total. |
| ManageTournaments.HandleDelete | app/admin/tournaments/page.tsx:53-84 | Nothing happens unless the user confirms. A confirmed delete always alerts. A request is sent exactly for a confirmed non-mock id, to "/api/tournaments/" + id. The list becomes the list without that id exactly when the id is a mock id or the server reports success. Otherwise it is unchanged. |
| ManageTournaments.Without | app/admin/tournaments/page.tsx:60-73 | Removal keeps exactly the tournaments with a different id. |
| ManageTournaments.WithoutKeepsOthers | app/admin/tournaments/page.tsx:60-73 | Removal is a subsequence of the list. It keeps every copy of each other tournament and no tournament with the id. |
| ManageTournaments.WithoutAbsentId | app/admin/tournaments/page.tsx:60-73 | Removing an id that is not listed changes nothing. |
| ManageTournaments.WithoutIdempotent | app/admin/tournaments/page.tsx:60-73 | Removing twice is removing once. |
| ManageTournaments.MockIdExamples | app/admin/tournaments/page.tsx:56 | Digit-only ids are mock ids. The empty id and a database object id are not. |
| Faq.Categories | app/faq/page.tsx:101 | The category list starts with "All". |
| Faq.CategoriesSpec | app/faq/page.tsx:101 | After "All", every category used by some question appears, exactly once, in the order the questions first use it. |
| Faq.PageCategories | app/faq/page.tsx:14-101 | The page's sixteen questions give the buttons All, Registration, Payment, Gameplay, Prizes, Rules, Technical. |
| Faq.DedupOfRuns | app/faq/page.tsx:101 | Six distinct categories in runs of 3, 2, 3, 3, 3 and 2 de-duplicate to one of each, in order. |
| Faq.FilteredFaqs | app/faq/page.tsx:102-104 | "All" shows every question. Any other selection shows exactly the questions of that category. |
| Faq.FilteredKeepsOrder | app/faq/page.tsx:102-104 | The questions shown keep the page's order. |
| Faq.CategoryPagesPartition | app/faq/page.tsx:104 | A question appears on its own category's page as often as on the full list. |
| Faq.Toggle | app/faq/page.tsx:146 | Clicking the open question closes it. Clicking any other question opens it, so at most one answer is open. |
| Faq.ToggleTwice | app/faq/page.tsx:146 | Two clicks on the same question leave every answer closed, unless that question was open before: then it is open again. |
| Faq.SelectCategory | app/faq/page.tsx:99-129 | Selecting a category keeps the open position. |
| Faq.OpenEntry | app/faq/page.tsx:143-167 | An answer is open exactly when the open position lies within the filtered list, and it belongs to the filtered list. |
| Faq.SwitchingCategoryMovesOpenAnswer | app/faq/page.tsx:98-163 | Switching category can leave a different question open: the position stays and the list under it changes. |
| Text.Lower | app/api/auth/simple-login/route.ts:14-19 | `toLowerCase` keeps the length and maps each ASCII capital to its small letter. |
| Text.Trim | scripts/create-admin.js:14 | `trim` removes only white space, from both ends, and leaves a text that neither starts nor ends with white space. |
| Text.TrimPadded | scripts/create-admin.js:14 | `trim` removes exactly the white-space padding around such a text. |
| Text.TakeLast | lib/participant-utils.ts:12-18 | `substr(-n)` keeps the last min(n, length) characters. |
| Text.Decimal | lib/participant-utils.ts:12 | `toString()` of a natural number is a non-empty string of digits without a leading zero. |
| Text.DecimalRoundTrip | lib/participant-utils.ts:12 | Reading the printed number back gives the number. |
| Text.DecimalHasFourDigits | lib/participant-utils.ts:12 | A number prints with at least four digits exactly when it is at least 1000. |
| Text.TemplateText | app/api/payment/verify/route.ts:87 | Interpolating a value gives the value, and "undefined" for a missing one. |
| Strings.Split | scripts/create-admin.js:11-12 | `split` on one character yields at least one piece, and no piece holds the separator. |
| Strings.JoinSplit | scripts/create-admin.js:12-14 | Joining the pieces of a split with its separator restores the text. |
| Strings.SplitJoin | app/admin/teams/page.tsx:154-157 | Splitting a join of separator-free parts gives the parts back. |
| Strings.SplitConcat | lib/participant-utils.ts:23-38 | Splitting `x + sep + y` gives the pieces of `x` followed by those of `y`. |
| Strings.SplitSingleIffNoSeparator | scripts/create-admin.js:12-13 | A split yields a single piece exactly when the separator does not occur. |
| Strings.SplitLength | app/admin/teams/page.tsx:156 | A split yields one piece more than the separator occurs. |
| Strings.JoinWithOccurrences | app/admin/teams/page.tsx:149 | Joining parts with a separator that holds the character once adds one occurrence per gap. |
| Strings.JoinAddsOnlySeparator | app/admin/teams/page.tsx:155-157 | A join holds no character other than the separator that its parts do not hold. |
| Seqs.FilterIsSubsequence | app/tournaments/page.tsx:84 | `filter` keeps the input's order. |
| Seqs.FilterMultiplicity | app/tournaments/page.tsx:84 | `filter` keeps every copy of a kept element and none of a dropped one. |
| Seqs.FilterAppend | app/admin/dashboard/page.tsx:40 | Filtering a concatenation filters the parts. |
| Seqs.DedupSpec | app/faq/page.tsx:101 | `Array.from(new Set(s))` holds each element of `s` exactly once, ordered by first appearance. |

## Left out

- The keyed hash (HMAC-SHA256), bcrypt comparison, date formatting (`toLocaleString`), `Math.random` and `Date.now` are parameters. Only the message that is signed and the way the results are used are modelled.
- Database access (connection caching, `findById`, `findOne`, `create`, `save`) is a `Store` value or a map lookup with explicit fault flags. A malformed object id makes `findById` throw a cast error; that case is a lookup fault, not a separate path.
- The payment gateway's HTTP call is a function from the request sent to its reply. Only the request fields that the route derives (purpose, amount, buyer name, email) are modelled. The redirect and webhook URLs, shipping address and flags are constants with no logic.
- Concurrent verification requests racing on one counter are not modelled. Requests are handled one after another (`VerifyPayment.RunAll`).
- A request body without `teamData` makes the verification route throw while logging, before the signature check. The model always has a team payload. A request body that is not JSON is likewise left out.
- Numbers are unbounded integers. Floating-point amounts and counters that are not whole numbers are not modelled.
- Text.Lower: maps ASCII letters only. The JavaScript built-in also maps non-ASCII letters, and ids, modes and emails outside ASCII are not modelled.
- ParticipantIds.RandomPart: `Math.random().toString(36)` is taken as the base-36 digits after "0.". The float-to-string conversion itself is not modelled.
- The payment client at lib/razorpay.ts:3-6 is built when the module loads. A failure there happens outside the route's catch and is not modelled. An unset signing secret inside the route is modelled as the `missingSecret` fault, answered with 500.
- TeamRegistrations: the CSV file download (`Blob`, object URL, file name with the clock) is I/O and is left out. Only the text content is modelled.
- Dashboard.ComputeStats: the active count's exact value is stated through `Dashboard.OngoingCount` (zero and full cases). The sums are stated through `Dashboard.StatsAdd`, `Dashboard.UniformFeeRevenue` and `Dashboard.TotalsNonNegative` rather than in the function's own contract.
- EnvFile: only the parser of the two admin scripts is modelled. Their database work (hashing, upserting the admin user) is I/O through foreign calls.
- The remaining pages (rendering, loading and error states of fetches), the static pages, the demo fixtures of the API routes, and the remaining scripts and models hold no logic of the registration core. They are not part of this model.

## Findings

| source | as written | input that shows it | evidently intended | confidence | as-written member | corrected member |
|---|---|---|---|---|---|---|
| app/api/payment/create-order/route.ts:24 | `tournament.mode === 'Solo'`: solo detection is case-sensitive, while verification (app/api/payment/verify/route.ts:53) lower-cases the mode | a tournament with mode "solo", `registeredPlayers` 2 = `maxPlayers` 2, `registeredTeams` 0 < `maxTeams` 10: the order route gates on the team counter and requests payment, then verification gates on the player counter and answers "Tournament is full" after the entrant has paid | both routes detect solo the same way, case-insensitively, so an order is refused exactly when verification would refuse it | not executed | CreateOrder.OrderGateDisagreesWithVerify | CreateOrder.AlignedOrderAgreesWithVerify |
