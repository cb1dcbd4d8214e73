# IgrejaTech page logic in Dafny

IgrejaTech is a single-page dashboard for running a church. Its pages keep their records
in component state, and each page adds, edits, deletes, searches and totals those records.
The pages covered here are events, finances, social action, assets, volunteer rosters,
members, small groups, congregations and Sunday school (EBD). The sidebar highlight is
covered as well.

This project models that logic. Each page is a module. The page's state (its record list,
the record under edit, the current page of the member table) is a `class` whose methods
are the page's handlers. Each method's postcondition ties the new state to a pure function
of the old state. Lemmas then prove what the page promises about those functions:

- an incomplete form changes nothing;
- an edit touches only the chosen record and only the form's fields;
- a create adds exactly one record with the stated defaults;
- a delete removes exactly the chosen id and keeps order;
- a search returns an order-preserving selection, and everything for an empty query;
- totals and averages obey their bounds and are kept by the operations that should keep them.

Two shared modules hold the list and text operations the pages use:

- `Collections`: filter, per-element update, sums, subsequence.
- `Text`: substring search, lower-casing, split, join, trim.

Inputs the browser supplies become parameters. These are:

- the fresh id from `Date.now()`;
- the locale-formatted date;
- today's date and the current year;
- the user's answer to a confirmation dialog.

Money is whole cents and attendance is a whole percentage.

## Model

| member | source | states |
|---|---|---|
| Collections.FilterIsSubsequence | src/pages/Events.tsx:133-136 | a filter returns an order-preserving subsequence of its input |
| Collections.FilterKeepsAll | src/pages/Events.tsx:133-136 | when every element passes, the filter returns the whole list |
| Collections.FilterRemovesOne | src/pages/Congregations.tsx:123 | filtering out the only element failing the test removes exactly that position |
| Collections.FilterKeepsPairwise | src/pages/Congregations.tsx:123 | a relation holding between all pairs of a list still holds after filtering |
| Collections.SumUpdateWhere | src/pages/Grupos.tsx:136 | rewriting elements without changing the summed field keeps the sum |
| Collections.SumBounds | src/pages/EBD.tsx:61 | a sum of n terms each within [lo, hi] lies within [n*lo, n*hi] |
| Collections.SumAppend | src/pages/Financial.tsx:82-84 | the sum over a concatenation is the sum of the two sums |
| Text.ContainsIffOccurs | src/pages/Events.tsx:134-135 | `includes` holds exactly when the query occurs at some position |
| Text.EmptyQueryMatches | src/pages/Events.tsx:133-136 | the empty query matches every text |
| Text.JoinSplit | src/pages/Escalas.tsx:80 | joining the pieces of a split on the same separator rebuilds the text |
| Text.SplitJoin | src/pages/Escalas.tsx:51 | splitting a join of separator-free parts gives the parts back |
| Text.Trim | src/pages/Escalas.tsx:51 | a trimmed piece is a contiguous slice with no whitespace at either end |
| Text.TrimKeepsAbsent | src/pages/Escalas.tsx:51 | a character absent from a text is absent from its trim |
| Text.TrimSkipsLeadingSpace | src/pages/Escalas.tsx:51 | trimming a text that starts with a space gives the trim of the rest |
| Layout.ExactPathIsActive | src/components/Layout.tsx:72 | an item is active whenever the path equals its link |
| Layout.RootActiveOnlyAtRoot | src/components/Layout.tsx:72-73 | the dashboard item is active exactly on the root path |
| Layout.OtherActiveIffPrefix | src/components/Layout.tsx:73 | any other item is active exactly when its link is a prefix of the path |
| Layout.DetailPathHighlightsSection | src/components/Layout.tsx:73 | a detail path such as /membros/5 highlights the Membros item |
| Layout.NavigationPrefixFree | src/components/Layout.tsx:23-35 | no non-root link is a prefix of any other link |
| Layout.AtMostOneActive | src/components/Layout.tsx:23-35 | on any path at most one sidebar item is active |
| Layout.CongregationsPathHighlightsNothing | src/App.tsx:40 | the routed congregations path highlights no sidebar item |
| Events.MissingFieldKeepsEvents | src/pages/Events.tsx:56 | a submit without title, date or time leaves the events unchanged |
| Events.BlockedDateKeepsEvents | src/pages/Events.tsx:58-63 | a submit on a blocked date leaves the events unchanged |
| Events.ConflictRule | src/pages/Events.tsx:65-76 | a submit is rejected exactly when another event has the same date, time and location |
| Events.EditTouchesOnlyTarget | src/pages/Events.tsx:78-87 | an edit rewrites the five form fields of the chosen event only; ids, attendees, status, others and length stay |
| Events.CreateAppends | src/pages/Events.tsx:88-99 | a create appends one confirmed event with the fresh id, no attendees and the form's title, date, time, location and type |
| Events.SubmitKeepsSchedule | src/pages/Events.tsx:65-99 | if no two events share a slot, no accepted submit makes two share one |
| Events.DeleteRemovesOnlyId | src/pages/Events.tsx:127-131 | delete removes exactly the events with the id and keeps the rest in order |
| Events.DeleteKeepsSchedule | src/pages/Events.tsx:127-131 | delete keeps the slots distinct |
| Events.SearchIsOrderedSelection | src/pages/Events.tsx:133-136 | the search returns in order exactly the events whose title or location holds the query, all for an empty query |
| Events.MonthCells | src/pages/Events.tsx:138-152 | the grid has leading blanks for the first weekday, then day k+1 in cell blanks+k |
| Events.DateKeyShape | src/pages/Events.tsx:169-173 | a day's key is year-month-day with a two-digit month and day |
| Events.EventsForDate | src/pages/Events.tsx:169-173 | a blank cell has no events; a day cell lists exactly the events on its date, as an order-preserving subsequence |
| Events.SeedIsWellScheduled | src/pages/Events.tsx:21-27 | the seeded events occupy distinct slots |
| Events.BlocksAreComplete | src/pages/Events.tsx:119-125 | adding a block keeps every stored block with a date and a reason |
| Events.EventsPage.constructor | src/pages/Events.tsx:21-27 | the page starts with the seeded events, no blocks (so all blocks complete) and no edit open |
| Events.EventsPage.AddEvent | src/pages/Events.tsx:54-104 | the events become the submit's result, the outcome is reported, and distinct slots are preserved |
| Events.EventsPage.BeginEdit | src/pages/Events.tsx:106-117 | the edit opens on the event with a form holding its fields |
| Events.EventsPage.CancelEdit | src/pages/Events.tsx:405-408 | closing the form clears the edit, empties the form and keeps the events and blocks |
| Events.EventsPage.AddBlock | src/pages/Events.tsx:119-125 | a block with date and reason is appended, otherwise nothing changes; complete blocks stay complete |
| Events.EventsPage.DeleteEvent | src/pages/Events.tsx:127-131 | a confirmed delete removes the id; an unconfirmed one changes nothing |
| Financial.SignedAmount | src/pages/Financial.tsx:64-65 | an expense is stored as -abs(x) and an income as +abs(x) |
| Financial.IncompleteFormKeepsLedger | src/pages/Financial.tsx:62 | without amount, description or date the ledger is unchanged |
| Financial.AddPrepends | src/pages/Financial.tsx:67-77 | a new completed transaction goes to the front and the old ledger follows |
| Financial.AddKeepsSigns | src/pages/Financial.tsx:64-77 | adding keeps every expense non-positive and every income non-negative |
| Financial.SeedSignsAgree | src/pages/Financial.tsx:34-40 | the seeded ledger has the sign its types demand |
| Financial.TotalExpenseNonNegative | src/pages/Financial.tsx:83 | the expense total is never negative |
| Financial.BalanceIsSumOfAmounts | src/pages/Financial.tsx:82-84 | on a sign-consistent ledger the balance equals the sum of all amounts |
| Financial.AddMovesOneTotal | src/pages/Financial.tsx:60-84 | an income adds abs(x) to income only; an expense adds abs(x) to expense only |
| Financial.Recent | src/pages/Financial.tsx:189 | the recent list is the first min(4, n) transactions in store order |
| Financial.RecentAfterAdd | src/pages/Financial.tsx:189 | after an add the recent list starts with the new transaction |
| Financial.ShownInRecent | src/pages/Financial.tsx:208 | the recent card shows '+' before income and no sign before an expense, then the magnitude abs(amount) |
| Financial.ShownInHistory | src/pages/Financial.tsx:342 | the history row shows the sign and the magnitude abs(amount) |
| Financial.HistoryLabelReadsBack | src/pages/Financial.tsx:342 | for a sign-consistent transaction, the history sign and magnitude read back as the stored amount |
| Financial.FinancialPage.constructor | src/pages/Financial.tsx:34-40 | the page starts with the seeded ledger |
| Financial.FinancialPage.AddTransaction | src/pages/Financial.tsx:60-80 | the ledger becomes the add's result and sign consistency is preserved |
| SocialAction.StockStatus | src/pages/SocialAction.tsx:63 | Crítico exactly at 0, Baixo exactly at 1..9, Suficiente exactly at 10 or more |
| SocialAction.StockAfter | src/pages/SocialAction.tsx:59 | the new stock is max(0, stock - q), so never negative and never above stock for q >= 0 |
| SocialAction.IncompleteFormChangesNothing | src/pages/SocialAction.tsx:51 | without beneficiary, resource or date neither list changes |
| SocialAction.DistributionTouchesOnlyTarget | src/pages/SocialAction.tsx:57-67 | only the chosen resource changes, taking the clamped quantity and its status |
| SocialAction.DistributionNeverRaisesStock | src/pages/SocialAction.tsx:393 | with q >= 1 the chosen stock does not grow, and an empty stock stays empty and Crítico |
| SocialAction.DistributionKeepsStatuses | src/pages/SocialAction.tsx:57-67 | if every status matched its quantity before, it still does |
| SocialAction.SeedStatusesInconsistent | src/pages/SocialAction.tsx:25-27 | the seeded rows 2 and 4 carry a status their quantity does not give |
| SocialAction.MilkDistributionExample | src/pages/SocialAction.tsx:57-67 | taking more than the stock leaves 0 and Crítico |
| SocialAction.AssistanceTouchesOnlyBeneficiary | src/pages/SocialAction.tsx:70-78 | only the chosen beneficiary's last-assistance date changes |
| SocialAction.BeneficiarySearchIsOrderedSelection | src/pages/SocialAction.tsx:84-86 | the beneficiary search returns in order exactly the beneficiaries whose name holds the query, all for an empty query |
| SocialAction.ResourceSearchIsOrderedSelection | src/pages/SocialAction.tsx:88-91 | the resource search returns in order exactly the resources whose name or category holds the query, all for an empty query |
| SocialAction.PriorityCasesAreExactlyHigh | src/pages/SocialAction.tsx:178 | the priority list is exactly the Alta beneficiaries in store order |
| SocialAction.SocialActionPage.constructor | src/pages/SocialAction.tsx:16-28 | the page starts with the seeded beneficiaries and resources |
| SocialAction.SocialActionPage.AddAssistance | src/pages/SocialAction.tsx:49-82 | both lists become the handler's results and consistent statuses stay consistent |
| Patrimonio.StoredLocation | src/pages/Patrimonio.tsx:61 | a blank location is stored as 'Não especificado', any other as given |
| Patrimonio.StoredDate | src/pages/Patrimonio.tsx:63 | a blank purchase date is stored as 'N/A', any other as its locale form |
| Patrimonio.IsoFromDisplay | src/pages/Patrimonio.tsx:87-93 | only a date with three '/'-parts gives a non-empty result; 'N/A' gives '' |
| Patrimonio.IsoFromDisplayReorders | src/pages/Patrimonio.tsx:87-93 | d/m/y becomes y-m-d |
| Patrimonio.IsoFromDisplayIsDateString | src/pages/Patrimonio.tsx:87-93 | a well-formed dd/mm/yyyy becomes a valid date string for the date input |
| Patrimonio.IsoFromDisplayRejects | src/pages/Patrimonio.tsx:87-93 | a text without exactly three parts gives '' |
| Patrimonio.EditForm | src/pages/Patrimonio.tsx:84-105 | the edit form carries the asset's fields and the reordered date |
| Patrimonio.IncompleteFormKeepsAssets | src/pages/Patrimonio.tsx:54 | without name or value the assets are unchanged |
| Patrimonio.CreateAppends | src/pages/Patrimonio.tsx:67-77 | a create appends one asset with the fresh id, the form's name, category, condition and value, and the location kept or defaulted |
| Patrimonio.EditTouchesOnlyTarget | src/pages/Patrimonio.tsx:56-66 | an edit rewrites only the chosen asset, keeping its id and the length |
| Patrimonio.DeleteRemovesOnlyId | src/pages/Patrimonio.tsx:283 | delete removes exactly the chosen id and keeps order |
| Patrimonio.FilterIsConjunction | src/pages/Patrimonio.tsx:107-112 | the list shows in order exactly the assets passing the query, category and condition tests |
| Patrimonio.NoFiltersShowsAll | src/pages/Patrimonio.tsx:107-112 | with no query and no filters every asset is shown |
| Patrimonio.MaintenanceCount | src/pages/Patrimonio.tsx:115 | the maintenance count never exceeds the number of assets |
| Patrimonio.CreateMovesSummary | src/pages/Patrimonio.tsx:114-115 | a create adds its value to the total and counts it if under maintenance |
| Patrimonio.PatrimonioPage.constructor | src/pages/Patrimonio.tsx:14-19 | the page starts with the seeded assets |
| Patrimonio.PatrimonioPage.AddAsset | src/pages/Patrimonio.tsx:52-82 | the assets become the submit's result |
| Patrimonio.PatrimonioPage.BeginEdit | src/pages/Patrimonio.tsx:84-105 | the edit opens on the asset with its edit form |
| Patrimonio.PatrimonioPage.CancelEdit | src/pages/Patrimonio.tsx:132-136 | the new and close buttons clear the edit, empty the form and keep the assets |
| Patrimonio.PatrimonioPage.DeleteAsset | src/pages/Patrimonio.tsx:281-285 | a confirmed delete removes the id; otherwise nothing changes |
| Escalas.TrimmedPiecesAreClean | src/pages/Escalas.tsx:51 | the trimmed pieces of a ','-split are trimmed and comma-free |
| Escalas.ParsedMembersAreClean | src/pages/Escalas.tsx:51 | parsed names are non-empty, comma-free and trimmed, in input order, and every non-empty trimmed piece is kept |
| Escalas.JoinCommaSpace | src/pages/Escalas.tsx:80 | a ', '-join is the ','-join of the names each given a leading space, less the first space |
| Escalas.JoinAsPieces | src/pages/Escalas.tsx:80 | the pieces of a ', '-join are the spaced names |
| Escalas.PiecesAreCommaFree | src/pages/Escalas.tsx:80 | comma-free names give comma-free pieces |
| Escalas.TrimPieces | src/pages/Escalas.tsx:51 | trimming the pieces gives back the clean names |
| Escalas.ParseJoinRoundTrip | src/pages/Escalas.tsx:51 | parsing the join of clean names gives the names back |
| Escalas.EditDateReorders | src/pages/Escalas.tsx:74-77 | d/m/y becomes y-m-d |
| Escalas.EditDateOfUnsplitDate | src/pages/Escalas.tsx:74-77 | a date without '/' becomes 'undefined-undefined-' followed by it |
| Escalas.EditedDate | src/pages/Escalas.tsx:48 | on edit a date with '-' is reformatted and any other is stored verbatim |
| Escalas.IncompleteFormKeepsRosters | src/pages/Escalas.tsx:42 | without event, date or team the rosters are unchanged |
| Escalas.CreateAppendsPending | src/pages/Escalas.tsx:55-64 | a create appends one Pendente roster with the fresh id |
| Escalas.EditTouchesOnlyTarget | src/pages/Escalas.tsx:44-53 | an edit keeps id and status and changes only the chosen roster |
| Escalas.UnchangedEditKeepsMembers | src/pages/Escalas.tsx:80 | an edit submitted without touching the member text keeps the member list |
| Escalas.PendingCount | src/pages/Escalas.tsx:157 | the pending count never exceeds the number of rosters |
| Escalas.CreateMovesCards | src/pages/Escalas.tsx:145 | a create adds its members to the volunteer total and one to the pending count |
| Escalas.DeleteRemovesOnlyId | src/pages/Escalas.tsx:85-89 | delete removes exactly the chosen id and keeps order |
| Escalas.SearchIsOrderedSelection | src/pages/Escalas.tsx:95-98 | the search returns in order exactly the rosters whose event or team holds the query, all for an empty query |
| Escalas.EscalasPage.constructor | src/pages/Escalas.tsx:15-19 | the page starts with the seeded rosters |
| Escalas.EscalasPage.AddRoster | src/pages/Escalas.tsx:40-69 | the rosters become the submit's result |
| Escalas.EscalasPage.BeginEdit | src/pages/Escalas.tsx:71-83 | the edit opens with joined members and the reordered date |
| Escalas.EscalasPage.CancelEdit | src/pages/Escalas.tsx:112-116 | the new and close buttons clear the edit, empty the form and keep the rosters |
| Escalas.EscalasPage.DeleteRoster | src/pages/Escalas.tsx:85-89 | a confirmed delete removes the id; otherwise nothing changes |
| Members.IncompleteFormKeepsMembers | src/pages/Members.tsx:46 | without name or e-mail the members are unchanged |
| Members.AddPrepends | src/pages/Members.tsx:52-59 | a new member goes to the front with the default phone when blank |
| Members.AvatarOfFirstWord | src/pages/Members.tsx:56 | the avatar seed is the lower-cased first word of the name |
| Members.DeleteRemovesOnlyId | src/pages/Members.tsx:64-68 | delete removes exactly the chosen id and keeps order |
| Members.SearchIsOrderedSelection | src/pages/Members.tsx:70-74 | the search matches name or e-mail ignoring case and phone as written, in order |
| Members.TotalPagesIsCeiling | src/pages/Members.tsx:76 | the page count is the ceiling of n/5 |
| Members.PageOf | src/pages/Members.tsx:77-78 | a page holds at most five rows |
| Members.PageIsRun | src/pages/Members.tsx:77-78 | a page is the run of rows starting at (page-1)*5 |
| Members.FirstPagesArePrefix | src/pages/Members.tsx:76-78 | the first k pages joined are the list's first min(5k, n) rows |
| Members.PagesCoverList | src/pages/Members.tsx:76-78 | all pages joined reproduce the filtered list |
| Members.PagingStaysInRange | src/pages/Members.tsx:80-86 | next and prev keep a page within [1, page count] |
| Members.ShowingCountsPage | src/pages/Members.tsx:205 | the caption shows 0 for an empty list, otherwise start+1 to min(start+5, n) |
| Members.DeleteStrandsPage | src/pages/Members.tsx:64-68 | with six rows on page 2, deleting one while keeping the page leaves page 2 out of range, empty, and captioned "6 a 5" |
| Members.ClampPage | src/pages/Members.tsx:76-78 | the clamped page is in range and unchanged when it already was |
| Members.DeleteUniqueId | src/pages/Members.tsx:64-68 | deleting a unique id removes exactly one row |
| Members.DeleteKeepsPageInRange | src/pages/Members.tsx:64-68 | with the page clamped, a delete keeps the current page in range |
| Members.MembersPage.constructor | src/pages/Members.tsx:16-22 | the page starts with the seeded members on page 1 |
| Members.MembersPage.Shown | src/pages/Members.tsx:77-78 | the table shows the current page of the filtered members |
| Members.AddKeepsPageInRange | src/pages/Members.tsx:44-62 | an add never shrinks the filtered list, so a page in range stays in range |
| Members.MembersPage.AddMember | src/pages/Members.tsx:44-62 | the members become the add's result, the page is kept and stays in range |
| Members.MembersPage.DeleteMemberAsWritten | src/pages/Members.tsx:64-68 | delete as written: the id is removed and the page number and query stay as they were |
| Members.MembersPage.DeleteMember | src/pages/Members.tsx:64-68 | the id is removed and the page is clamped into range |
| Members.MembersPage.SetQuery | src/pages/Members.tsx:88-91 | changing the search resets the page to 1 |
| Members.MembersPage.Next | src/pages/Members.tsx:80-82 | next moves only below the last page and stays in range |
| Members.MembersPage.Prev | src/pages/Members.tsx:84-86 | prev moves only above page 1 and stays in range |
| Grupos.IncompleteFormKeepsGroups | src/pages/Grupos.tsx:41 | without name or leader the groups are unchanged |
| Grupos.CreateAppends | src/pages/Grupos.tsx:53-65 | a create appends one Ativo group with the fresh id and no members |
| Grupos.EditTouchesOnlyTarget | src/pages/Grupos.tsx:43-52 | an edit rewrites only the five form fields of the chosen group |
| Grupos.EditForm | src/pages/Grupos.tsx:71-81 | the edit form carries the group's fields |
| Grupos.SubmitKeepsMemberTotal | src/pages/Grupos.tsx:136 | no create or edit changes the member total |
| Grupos.DeleteRemovesOnlyId | src/pages/Grupos.tsx:83-87 | delete removes exactly the chosen id and keeps order |
| Grupos.SearchIsOrderedSelection | src/pages/Grupos.tsx:89-92 | the search returns in order exactly the groups whose name or leader holds the query, all for an empty query |
| Grupos.GruposPage.constructor | src/pages/Grupos.tsx:14-18 | the page starts with the seeded groups |
| Grupos.GruposPage.AddGroup | src/pages/Grupos.tsx:39-69 | the groups become the submit's result and the member total is kept |
| Grupos.GruposPage.BeginEdit | src/pages/Grupos.tsx:71-81 | the edit opens on the group with its form |
| Grupos.GruposPage.CancelEdit | src/pages/Grupos.tsx:103-107 | the new and close buttons clear the edit, empty the form and keep the groups |
| Grupos.GruposPage.DeleteGroup | src/pages/Grupos.tsx:83-87 | a confirmed delete removes the id; otherwise nothing changes |
| Congregations.EditMergesForm | src/pages/Congregations.tsx:87-92 | an edit overwrites the six form fields and keeps id, members, founding year and picture |
| Congregations.CreateAppends | src/pages/Congregations.tsx:93-101 | a create appends one congregation with no members, the current year and the default picture |
| Congregations.EditForm | src/pages/Congregations.tsx:108-119 | the edit form carries the congregation's fields |
| Congregations.DeleteRemovesOnlyId | src/pages/Congregations.tsx:121-125 | delete removes exactly the chosen id and keeps order |
| Congregations.DeleteListedRemovesOne | src/pages/Congregations.tsx:123 | deleting a present unique id removes exactly one congregation |
| Congregations.SubmitKeepsUniqueIds | src/pages/Congregations.tsx:84-106 | with a fresh id for creates, submits keep ids unique |
| Congregations.DeleteKeepsUniqueIds | src/pages/Congregations.tsx:121-125 | delete keeps ids unique |
| Congregations.SearchIsOrderedSelection | src/pages/Congregations.tsx:127-131 | the search returns in order exactly the matches on name, leader or address |
| Congregations.CongregationsPage.constructor | src/pages/Congregations.tsx:18-55 | the page starts with the seeded congregations |
| Congregations.CongregationsPage.AddCongregation | src/pages/Congregations.tsx:84-106 | a complete form updates or appends, and ids stay unique |
| Congregations.CongregationsPage.BeginEdit | src/pages/Congregations.tsx:108-119 | the edit opens on the congregation with its form |
| Congregations.CongregationsPage.CancelEdit | src/pages/Congregations.tsx:156-160 | the new and close buttons clear the edit, empty the form and keep the congregations |
| Congregations.CongregationsPage.DeleteCongregation | src/pages/Congregations.tsx:121-125 | a confirmed delete removes the id and ids stay unique |
| Ebd.AttendanceColour | src/pages/EBD.tsx:172-173 | green at 90 or more, yellow at 75 to 89, red below 75 |
| Ebd.IncompleteFormKeepsClasses | src/pages/EBD.tsx:40 | without class, date or topic the classes are unchanged |
| Ebd.AttendanceTouchesOnlyTopic | src/pages/EBD.tsx:44-49 | only the chosen class's topic changes |
| Ebd.AttendanceKeepsCards | src/pages/EBD.tsx:60-61 | recording attendance keeps the student total and the average |
| Ebd.AverageRoundsHalfUp | src/pages/EBD.tsx:61 | the average is within one half of the exact mean, halves rounding up |
| Ebd.AverageWithinRange | src/pages/EBD.tsx:61 | the average lies between the lowest and the highest class attendance |
| Ebd.RoundedMeanWithin | src/pages/EBD.tsx:61 | a whole number within one half of a bounded mean shares its bounds |
| Ebd.SearchIsOrderedSelection | src/pages/EBD.tsx:55-58 | the search returns in order exactly the classes whose name or teacher holds the query, all for an empty query |
| Ebd.SeedCards | src/pages/EBD.tsx:16-21 | the seeded cards show 92 students and 88% |
| Ebd.EbdPage.constructor | src/pages/EBD.tsx:16-21 | the page starts with the seeded classes, so the average has a divisor |
| Ebd.EbdPage.Average | src/pages/EBD.tsx:61 | the shown average is the half-up rounding of the mean |
| Ebd.EbdPage.AddAttendance | src/pages/EBD.tsx:38-53 | the classes become the handler's result and both cards are kept |

## Left out

- Rendering is not modelled: JSX, modals, CSS classes, icons and charts. The chart figures in the finance, dashboard and reports pages are fixed data.
- Dates from the browser are parameters. This covers `Date.now()`, `new Date(...)`, `toLocaleDateString('pt-BR')` and `getFullYear`. The calendar's first weekday and day count are inputs of `Events.MonthCells`, and month navigation is not modelled.
- No round trip from an ISO date to a display date and back is claimed. The browser parses the ISO date in UTC and formats it in local time, so the day can shift.
- Events.MonthCells: takes the first weekday and the day count as inputs, rather than computing them from a `Date` object.
- Number parsing (`parseFloat`, `parseInt`) and floating point are not modelled. Amounts are whole cents, stock quantities are whole numbers, and an empty numeric field is `None`. NaN inputs are out of scope.
- Attendance strings such as "85%" are stored as the whole percentage 85.
- `toLowerCase` is modelled for ASCII and Latin-1 letters only. Other Unicode case mappings are not modelled.
- `alert` and `confirm` are not modelled. A confirmation becomes a boolean argument to the delete methods. An alert becomes the outcome value the add methods return.
- Form typing (`handleInputChange`), the open/close flags of modals, and fields the form holds but never stores are not modelled. The unstored fields are the event description, the assistance notes and the EBD date.
- Escalas: the notify button only shows an alert, so it is not modelled.
- `src/services/ai.ts` is not part of this model. It makes remote calls, and its only local logic is a fixed fallback string.
- The settings, login, password-recovery, dashboard and reports pages are not part of this model. They hold timers, navigation or fixed numbers only. `src/App.tsx` is used only for its route list.
- Congregations.CongregationsPage.AddCongregation: requires a complete form, because the handler itself checks nothing and the required form inputs are what keep empty names out.
- Members.MembersPage.DeleteMember: clamps the page into range after a delete, as the corrected behaviour under Findings. The page as written keeps the old page number; `Members.MembersPage.DeleteMemberAsWritten` models that.
- Fresh ids are assumed unique. The model requires the id of a create to be unused rather than deriving that from the clock.

## Findings

| source | as written | input that shows it | evidently intended | confidence | as-written member | corrected member |
|---|---|---|---|---|---|---|
| src/pages/Members.tsx:64-68 | deleting a member leaves `currentPage` unchanged, even when the last page disappears | six members listed, page 2 open, delete one: page 2 of 1 is shown empty and the caption reads "6 a 5" | the page is clamped to the last page, as the search reset and the disabled buttons do elsewhere | medium, not executed | Members.DeleteStrandsPage | Members.DeleteKeepsPageInRange |
