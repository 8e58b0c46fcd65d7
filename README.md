# Railway booking front end: a verified model of its page logic

The application is a React front end over a hosted database. A traveller
searches trains by route and date, books a seat in a travel class, and looks
up a booking by its PNR or a train's live status by its number. Most of the
code is layout and database calls. This project models the rules inside the
pages and proves properties of them:

- the station directory and its search (`stations.dfy`);
- the suggestion list of the station input (`station_autocomplete.dfy`);
- the search form's guard (`search_trains.dfy`);
- the train list's route filter and its Book action (`train_list.dfy`);
- fares, seat labels, offered classes and the booking handler (`book_train.dfy`);
- the live status projection (`train_status.dfy`);
- PNR input sanitising and PNR lookup (`pnr_status.dfy`).

Shared pieces:

- `records.dfy` holds the database rows.
- `query_string.dfy` holds the URL parameters the pages pass to one another.
- `text.dfy` models the JavaScript string built-ins the pages use.
- `seqs.dfy` has `filter` and `slice`.
- `wrappers.dfy` has `Option`.

The database is never called. A store is a value the caller passes in:
- the trains and status reports are sequences;
- the bookings are a map from PNR to row, inside a `BookingStore` object that
  `HandleBooking` changes.

A query that fails for a reason other than "no row" is a boolean parameter.
So is an insert that fails for a reason other than the ones the model's table
decides itself. The table's own reasons are a taken PNR, and `null` in the
non-null `travel_date` or `passenger_age` column. `null` is what a missing
`date` parameter and a `NaN` age become.
The PNR generator's reply is an `Option` parameter, where `None` is its error.
`Math.random() * 72` is a real parameter `r` with 0 ≤ r < 72. Money is an
exact `real`, and timestamps are integers.

The component and page state that handlers update becomes a class with
methods:
- the autocomplete's `value`, `suggestions`, `showSuggestions` and `selectedIndex`;
- the train list;
- the shown status;
- the PNR field and the shown booking;
- the search form's fields.

Each such method is specified against a pure function. The lemmas and
function contracts state the properties.

The code does less than one might expect in four places:

- **No passenger validation.** The booking handler checks only that a user
  and a train are present. The name, age, gender and class are checked only
  by HTML attributes (`required`, `min`, `max`), so the model accepts any
  form. An empty class gives fare 0 and seat label `-n`.
- **No train-id error in the handler.** Booking with an unknown train id is
  not an error inside the handler. The page loads its train separately and
  navigates away on failure, so the handler does nothing without a train.
- **Trains, not offers.** The train list shows trains. It attaches no
  per-class fares.
- **Duplicate train numbers.** The exact-number lookup uses a query that
  needs exactly one row. Two trains with the same number therefore give
  "not found".

## Model

| member | source | states |
|---|---|---|
| `Stations.SearchStations` | src/data/stations.ts:78-88 | a query shorter than 2 characters gives no stations; at most 8 are returned; each is a table station whose lower-cased name, city or code contains the lower-cased query |
| `Stations.SearchKeepsTableOrder` | src/data/stations.ts:82-87 | the result has min(8, #matches) stations and is exactly the matches among some prefix of the table, i.e. the first matches in table order |
| `Stations.SearchComplete` | src/data/stations.ts:82-87 | when at most 8 stations match, every matching table station is returned |
| `Stations.SearchIgnoresCase` | src/data/stations.ts:81 | searching a query and its lower-cased form give the same result |
| `Stations.TableCodesUnique` | src/data/stations.ts:10-75 | no two stations of the table share a code (the codes are the suggestion list's keys) |
| `Text.ContainsIffOccurs` | src/data/stations.ts:84-86 | the substring test `includes` holds exactly when the text occurs at some position |
| `StationAutocomplete.Label` | src/components/StationAutocomplete.tsx:58 | a selection writes `name (code)`: the name, " (", the code and ")" |
| `StationAutocomplete.Autocomplete.constructor` | src/components/StationAutocomplete.tsx:27-29 | no suggestions, hidden, nothing highlighted (-1) |
| `StationAutocomplete.Autocomplete.InputChange` | src/components/StationAutocomplete.tsx:43-55 | the typed text becomes the value; with 2+ characters the suggestions become the search result, shown, with the highlight reset to -1; otherwise they are cleared and hidden and the highlight is kept; the index bound is preserved |
| `StationAutocomplete.Autocomplete.SelectStation` | src/components/StationAutocomplete.tsx:57-61 | the value becomes the station's label; the list is cleared and hidden; the highlight is untouched |
| `StationAutocomplete.Autocomplete.KeyDown` | src/components/StationAutocomplete.tsx:63-87 | nothing changes while the list is hidden or empty; ArrowDown moves the highlight down, never past the last item; ArrowUp moves it up, 0 and -1 both going to -1; Enter with -1 changes nothing and with a valid index selects that suggestion; Escape only hides; Enter on a dangling index throws with nothing changed, which never happens from a state that keeps the bound, and every key keeps the bound |
| `StationAutocomplete.Autocomplete.Focus` | src/components/StationAutocomplete.tsx:103-109 | with 2+ characters the suggestions are recomputed and shown, the value and highlight untouched; the bound survives when the new list still covers the highlight |
| `BookTrain.Multiplier` | src/pages/BookTrain.tsx:75-81 | the multiplier of a listed class is its table entry (sleeper 1, 3ac 1.5, 2ac 2, 1ac 3); any other class gets 1; never below 1 |
| `BookTrain.CalculateFare` | src/pages/BookTrain.tsx:73-82 | 0 without a train or class; otherwise base fare times the class multiplier, hence at least the base fare when that is non-negative |
| `BookTrain.FareOfEachClass` | src/pages/BookTrain.tsx:75-81 | the fare of sleeper, 3ac, 2ac and 1ac is 1, 1.5, 2 and 3 times the base fare; an unknown non-empty class pays the base fare |
| `BookTrain.ClassCharge` | src/pages/BookTrain.tsx:287-291 | the class charge is base × (multiplier − 1), non-negative for a non-negative base fare |
| `BookTrain.OfferedClasses` | src/pages/BookTrain.tsx:213-224 | exactly the four class tags whose availability flag is true are offered, and every offered class has its own multiplier, so the fallback price never applies to an offered class |
| `BookTrain.SeatNumber` | src/pages/BookTrain.tsx:107 | the seat number n = floor(r) + 1 satisfies 1 ≤ n ≤ 72 and n − 1 ≤ r < n |
| `BookTrain.SeatLabel` | src/pages/BookTrain.tsx:107 | the label is the upper-cased class, '-', and decimal digits without a leading zero that read back as the seat number (pattern `CLASS-[1..72]`) |
| `Text.ParseInt` | src/pages/BookTrain.tsx:103 | `parseInt` gives NaN (`None`) exactly when no digit follows the optional sign |
| `Text.ParseIntDecimal` | src/pages/BookTrain.tsx:103 | `parseInt` of a number's decimal text gives the number back |
| `Text.ParseIntStopsAtNonDigit` | src/pages/BookTrain.tsx:103 | a number's decimal text followed by anything not starting with a digit reads as that number, with or without a leading '+' |
| `Text.ParseIntNegative` | src/pages/BookTrain.tsx:103 | '-' before a number's decimal text, then anything not starting with a digit, reads as the negated number |
| `BookTrain.BookingRecord` | src/pages/BookTrain.tsx:98-109 | the inserted row carries the generated PNR, the user and train ids, the passenger fields, date and class verbatim, the parsed age, `fare_paid = calculateFare()` and a seat label of the `CLASS-n` pattern for its class, n written without leading zeros |
| `BookTrain.Book` | src/pages/BookTrain.tsx:84-111 | no user or no train: nothing is attempted; a generator error: no insert; a booking is made iff both are present, the generator answered with a free PNR, the date is present, the age parses, and no other insert error occurs; each other attempted insert is a failed insert; the booking is the assembled row |
| `BookTrain.BookKeepsStore` | src/pages/BookTrain.tsx:98-109 | booking keeps every row filed under its own PNR, never replaces a row, and adds exactly one row on success and none otherwise |
| `BookTrain.BookingStore.constructor` | src/integrations/supabase/types.ts:18-33 | the bookings table starts empty |
| `BookTrain.BookingStore.Insert` | src/pages/BookTrain.tsx:98-111 | the insert succeeds iff there is no other database error, the row's date and age are non-null, and its PNR is free; on success exactly that row is added, otherwise the table is unchanged |
| `BookTrain.HandleBooking` | src/pages/BookTrain.tsx:84-120 | the outcome is `Book` of the old table, and the table afterwards holds exactly one new row under its PNR on success and is unchanged otherwise |
| `TrainList.FilterTrains` | src/pages/TrainList.tsx:42-50 | a train is listed iff it is in the store and matches the route: each non-empty text occurs, case-insensitively, in its source or destination station name |
| `TrainList.RouteQueryMeansRoute` | src/pages/TrainList.tsx:42-52 | the query built by adding one `ilike` condition per non-empty text selects exactly the route's trains |
| `TrainList.EmptyRouteListsAll` | src/pages/TrainList.tsx:44-50 | with both texts empty every train is listed, in store order |
| `TrainList.DestinationNarrows` | src/pages/TrainList.tsx:44-50 | the list for a source and destination is the source-only list filtered further, so it is an order-preserving sub-list of it |
| `TrainList.BookParams` | src/pages/TrainList.tsx:64-69 | the Book action's two parameters read back as the train id and the date, unchanged |
| `QueryString.Get` | src/pages/TrainList.tsx:30-32 | `searchParams.get` is absent iff no pair has that name; otherwise it is the value of the first pair with that name |
| `TrainList.TrainListPage.constructor` | src/pages/TrainList.tsx:30-32 | source, destination and date are the query parameters, "" when absent; the list starts empty |
| `TrainList.TrainListPage.FetchTrains` | src/pages/TrainList.tsx:38-62 | after a failed query the list is unchanged; otherwise it is the route's trains, a function of the store, source and destination only (the date is not consulted) |
| `TrainList.TrainListPage.HandleBookTrain` | src/pages/TrainList.tsx:64-70 | the navigation parameters are the train id and this page's date |
| `TrainStatus.FindByNumber` | src/pages/TrainStatus.tsx:46-59 | a train is found iff exactly one train has that number; the found train is in the store, has that number, and every train with that number is it |
| `TrainStatus.KnownTrainIsShown` | src/pages/TrainStatus.tsx:46-93 | a number held by exactly one train, with both queries succeeding, always shows that train: its latest report joined with it, or the estimate when it has no report |
| `TrainStatus.LatestStatus` | src/pages/TrainStatus.tsx:62-76 | no report iff the train has none; otherwise a report of that train whose `last_updated` is at least every other report's of that train |
| `TrainStatus.FallbackView` | src/pages/TrainStatus.tsx:80-93 | the estimate: "En Route", "On Time", delay 0, the typed number, "Train Details Not Available", and "-" for both stations |
| `TrainStatus.StatusSearch` | src/pages/TrainStatus.tsx:33-98 | an empty number is rejected, and only it; an unknown number is not-found; an error in either query fails the search, so nothing is shown; a shown view belongs to the found train and is its latest report joined with the train, or the estimate when it has none; with no query errors a found train is always shown |
| `TrainStatus.Badge` | src/pages/TrainStatus.tsx:145-150 | the badge is "destructive" iff the delay is positive |
| `TrainStatus.DelayLine` | src/pages/TrainStatus.tsx:175-183 | the "Delayed by" line appears iff the delay is positive and shows the stored minutes unchanged |
| `TrainStatus.Location` | src/pages/TrainStatus.tsx:171 | the shown location is the current station when non-empty, else "En Route" |
| `TrainStatus.FallbackDisplay` | src/pages/TrainStatus.tsx:80-93 | the estimate shows no delay line, the default badge and "En Route" |
| `TrainStatus.TrainStatusPage.constructor` | src/pages/TrainStatus.tsx:29-31 | empty number, no status shown |
| `TrainStatus.TrainStatusPage.HandleSearch` | src/pages/TrainStatus.tsx:33-104 | the outcome is `StatusSearch`; a rejected search leaves the shown status unchanged; every other search clears it first, and only a shown view sets it |
| `PnrStatus.Sanitize` | src/pages/PNRStatus.tsx:100 | the field holds only digits and is a prefix of the typed text's digits: all of them when there are fewer than 10, otherwise the first 10 |
| `PnrStatus.SanitizeKeepsPnr` | src/pages/PNRStatus.tsx:100 | a string of at most 10 digits is kept unchanged |
| `PnrStatus.SanitizeIdempotent` | src/pages/PNRStatus.tsx:100 | sanitising twice is sanitising once |
| `PnrStatus.PnrSearch` | src/pages/PNRStatus.tsx:36-73 | the search is refused iff the PNR is not 10 characters; otherwise a query error fails the search, and without one a booking is found iff one is stored under exactly that PNR, and it is that booking |
| `PnrStatus.FoundHasThatPnr` | src/pages/PNRStatus.tsx:61 | in a store filed by PNR the found booking's own PNR is the one searched for |
| `PnrStatus.BookedIsRetrievable` | src/pages/PNRStatus.tsx:39-62 | a booking just made under a 10-digit PNR is found, unchanged, by typing that PNR into the PNR page, with its fare equal to `calculateFare()` |
| `PnrStatus.PnrStatusPage.constructor` | src/pages/PNRStatus.tsx:32-34 | empty field, no booking shown |
| `PnrStatus.PnrStatusPage.Input` | src/pages/PNRStatus.tsx:100 | the field becomes the sanitised text |
| `PnrStatus.PnrStatusPage.HandleSearch` | src/pages/PNRStatus.tsx:36-80 | the outcome is `PnrSearch` on the store; a refused search leaves the shown booking unchanged; every other search clears it first, and only a found booking sets it |
| `SearchTrains.SearchQuery` | src/pages/SearchTrains.tsx:18-31 | the search is refused iff source, destination or date is empty (blank text and past dates pass); otherwise exactly three parameters, which read back as the three fields unchanged |
| `SearchTrains.SearchForm.constructor` | src/pages/SearchTrains.tsx:14-16 | all three fields start empty |
| `SearchTrains.SearchForm.HandleSearch` | src/pages/SearchTrains.tsx:18-32 | the navigation is `SearchQuery` of the current fields, and none when refused |

## Left out

- Database access. The queries, the `generate_pnr` procedure and sign-in are
  not modelled. Their data and failures are parameters. Of the insert's
  failures, only a taken PNR and a `null` date or age are decided by the
  model. Every other failure is the `insertFails` parameter.
- The PNR generator. It runs on the server and its code is not visible. So
  the model does not prove that PNRs are unique or have 10 characters. The
  model's bookings table refuses a PNR that is already taken.
  `PnrStatus.BookedIsRetrievable` assumes a 10-digit PNR.
- Column defaults. The database fills `id`, `booking_status`,
  `booking_date` and `created_at`, and the model leaves them out.
- Column constraints. Only the non-null date and age columns are modelled.
  The declared row types say which columns are non-null. The train foreign
  key and any check constraints are covered by `insertFails`.
- `ilike` pattern characters. `%`, `_` and `*` in the typed text are pattern
  characters for the database: `*` is read as `%`. `\` is the pattern's
  escape character. The model uses plain substring matching, which agrees
  only for text without these four characters.
- Text functions. `Text.Lower` and `Text.Upper` map only the ASCII letters.
  JavaScript maps all of Unicode.
- `Stations.SearchStations`, `StationAutocomplete.Autocomplete.InputChange`
  and `StationAutocomplete.Autocomplete.Focus` measure text in Unicode
  characters. JavaScript's `.length` counts UTF-16 code units.
- Text length. Take one character outside the Basic Multilingual Plane,
  such as an emoji. The source counts it as length 2, so it searches and
  shows an empty list with the highlight reset to -1. The model counts it
  as 1, so it hides the list and keeps the highlight.
- `Text.ParseInt` does not model leading-whitespace trimming or the `0x`
  prefix of `parseInt`.
- The age field. Its form fields make it a number field, so neither case
  arises there.
- `BookTrain.Multiplier` does not model property names inherited by an
  object literal, such as `constructor`, which would make the fare `NaN`.
  The class selector only offers the four tags.
- The floating-point product of the base fare and the multiplier, and
  `Math.random`. Fares are exact reals, and the random draw is the
  parameter `r`.
- URL parameter encoding. Parameters are name/value pairs that are passed
  unencoded and read back exactly.
- The booking page's `checkAuth` and `fetchTrain`. The signed-in user and
  the loaded train are parameters of `HandleBooking`. The form fields are
  passed as typed.
- `StationAutocomplete.Autocomplete.Focus`: the model does not prove that
  a focus refresh always keeps the highlighted index inside the list. It
  does for text typed into the input. After a selection the text is
  `name (code)`. No station in the table seems to match such text, but
  proving that takes a check of every character of the table, which the
  model does not include. So the bound is stated only under the condition
  written in the contract.
- Presentation. This covers toasts, navigation, loading flags, the
  click-outside listener, date formatting, rendering, and the expected
  arrival and last-update lines of the status card.
- The train details that the PNR page joins onto the booking it shows.
  The model shows the booking row itself.
- React scheduling. Handlers run one at a time, and each state update takes
  effect immediately.
- Other files. The dashboard, navigation bar, routing and generated type
  declarations are not part of this model. The record types follow the
  declared row shapes.
