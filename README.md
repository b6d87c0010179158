# Rental app core in Dafny

This project models the logic of a mobile car-rental application: the
rental ledger, authentication and the user registry, and language selection
with translation lookup. The application's screens only call into these
pieces.

- **Rental ledger.** The ledger holds three lists (cars, customers,
  rentals) and a derived statistics record: number of rentals, number of
  active rentals, revenue from completed rentals, number of available cars.
  It has two near-identical versions.
  - `Store.RentalStore` (rental_store.dfy) models the global store in
    `store/rental-store.ts`. It is a class whose fields the actions
    overwrite one after another. Actions call each other:
    `AddRental` calls `UpdateCarAvailability`, which calls
    `CalculateStats`, then `SaveData`. The device's key-value storage is
    the field `disk`. At load time the built-in seed catalogue is merged
    with the stored cars, keeping the first car of each id
    (`SeedCatalog`, seed.dfy). On save, only the cars whose id is not a
    catalogue id are written.
  - `RentalProvider` (rental_provider.dfy) models the context provider in
    `providers/rental-provider.tsx`. Each action is a pure updater from the
    previous state to the next one. The updater also returns the lists it
    hands to saveData.
  - The list transformations and the statistics projection are shared by
    both versions (`RentalLedger`, ledger.dfy). They are the `map`,
    `filter` and `find` calls.
  - The invariant proved everywhere: after every action that changes cars
    or rentals, the statistics are those of the current lists.
- **Authentication** (`Auth`, auth.dfy; `providers/auth-provider.tsx`).
  `Auth.AuthProvider` holds the session state and two storage entries:
  "auth_user" is `storedUser` and "registered_users" is `registered`.
  - Login looks up the built-in accounts first and the registered ones
    only after that. It accepts one fixed password.
  - Register and createUser refuse an email any known account has.
    Register keeps emails unique.
  - updateUser and deleteUser refuse ids of the built-in kind (`admin-…`,
    `client-…`).
  - The role guards and the payment guard decide who may rent.
  - Ids and timestamps come from the clock and enter as parameters.
- **Language** (`Language`, language.dfy;
  `providers/language-provider.tsx`) and **locales** (`Locales`,
  locales.dfy; `locales/index.ts`).
  - A code is valid when its trimmed form is one of ten codes. Trimming
    removes the ECMAScript whitespace set.
  - The setter and the saved-language loader adopt only valid codes.
  - `t` sanitises its key, then looks it up in the current language. It
    falls back to Portuguese when the entry is missing or empty.
  - The layout is right-to-left exactly for Arabic.

Two consequences of the code that the proofs make explicit:

- **Seed cars' availability is not kept across restarts.** The store never
  writes a catalogue car back to storage (`SeedCatalog.CustomCars`).
  Loading rebuilds the list from the catalogue first
  (`SeedCatalog.MergeSeedShape`), so a catalogue car marked unavailable
  by a booking comes back with the catalogue's availability.
- **The two ledger versions load differently.** The provider version loads
  the stored cars as they are, with no catalogue merged in
  (`RentalProvider.LoadData`).

Three behaviours of the code that the model keeps as they are:

- **Status changes.** Neither ledger restricts which status may follow
  which (store/rental-store.ts:70-86). Any status may follow any other,
  and the model adds no such precondition.
- **Completing a booking.** Completion adds the rental's price to the
  revenue and takes it out of the active count. The active count falls by
  one only when the rental was active. The status rewrite changes every
  rental with the id, so the drop is exactly one when that id is unique
  (`RentalProvider.CompleteActiveRental`).
- **Location updates.** `updateCarLocation` saves all three lists even when
  no rental has the id (store/rental-store.ts:107-121).

## Model

| member | source | states |
|---|---|---|
| Seqs.Filter | store/rental-store.ts:99 | `Array.prototype.filter`: never longer than the input (its own contract); which elements it keeps is stated by `FilterMembership`, and that it keeps their order by `FilterAppend` |
| Seqs.FilterMembership | store/rental-store.ts:99 | an element is kept iff it occurs in the input and passes the test |
| Seqs.FilterAppend | store/rental-store.ts:99 | filtering a concatenation is the concatenation of the filtered parts, so the kept elements stay in their order |
| Seqs.IndexWhere | providers/auth-provider.tsx:116 | `findIndex`: the first position whose element passes, with no earlier position passing; -1 exactly when none passes |
| Seqs.Find | store/rental-store.ts:91 | `find`: None exactly when no element passes; otherwise the element at a position that passes with no earlier position passing (the first match) |
| RentalLedger.CalculateStats | store/rental-store.ts:124-139 | the total is the number of rentals; the active count and the available count are bounded by the list lengths |
| RentalLedger.StatsCountMatchingPositions | store/rental-store.ts:126-130 | active count = number of positions with status active; available count = number of positions with an available car; revenue = the sum, over the positions of completed rentals, of their prices (`CompletedRevenue`) |
| RentalLedger.RevenueByPosition | store/rental-store.ts:127-129 | folding the prices of the completed rentals of a prefix equals the positional sum over that prefix |
| RentalLedger.PriceSum | store/rental-store.ts:129 | the `reduce` that adds up prices from 0; it is additive (`PriceSumAppend`) and order-independent (`PriceSumPermutation`) |
| RentalLedger.FreshLocation | store/rental-store.ts:113-116 | the new location record: the given coordinates and timestamp, with no address; `SetLocation` puts it on every rental with the id |
| RentalLedger.PriceSumAppend | store/rental-store.ts:127-129 | the revenue fold over two lists joined is the sum of the two folds |
| RentalLedger.PriceSumPermutation | store/rental-store.ts:127-129 | the revenue sum does not depend on the order of the rentals |
| RentalLedger.StatsOrderIndependent | store/rental-store.ts:124-139 | reordering the cars or the rentals leaves all four statistics unchanged |
| RentalLedger.StatsAppendRental | providers/rental-provider.tsx:137-141 | appending a rental adds one to the total, one to the active count iff it is active, and its price to the revenue iff it is completed; the available count is unchanged |
| RentalLedger.StatsAppendCar | providers/rental-provider.tsx:98-99 | appending a car adds one to the available count exactly when it is available; the rental figures are unchanged |
| RentalLedger.StatsAppendSuffix | store/rental-store.ts:124-139 | the rental figures of a list with a suffix appended are the sums of the figures of the two parts |
| RentalLedger.SingleStats | store/rental-store.ts:124-139 | the statistics of one car and one rental, for each status of the rental |
| RentalLedger.SetAvailability | store/rental-store.ts:44-49 | same length and order; every car with the id gets the new flag and nothing else changes; every other car is unchanged (so an unknown id changes nothing) |
| RentalLedger.SetAvailabilitySingle | store/rental-store.ts:44-49 | on a one-car list with that car's id, only its flag is replaced |
| RentalLedger.SetAvailabilityMembers | store/rental-store.ts:44-49 | after the map, every car with the id carries the new availability |
| RentalLedger.SetAvailabilityIdempotent | store/rental-store.ts:44-49 | setting the same availability twice equals setting it once |
| RentalLedger.SetStatus | store/rental-store.ts:70-75 | same length and order; only the status of rentals with the id changes; the others are unchanged |
| RentalLedger.SetStatusSingle | store/rental-store.ts:70-75 | on a one-rental list with that rental's id, only its status is replaced, and `find` returns that rental |
| RentalLedger.SetStatusIdempotent | store/rental-store.ts:70-75 | setting the same status twice equals setting it once |
| RentalLedger.SetLocation | store/rental-store.ts:107-120 | same length and order; rentals with the id get the new location (replacing any earlier one and its address); the others are unchanged |
| RentalLedger.StatsIgnoreLocation | store/rental-store.ts:107-122 | a location update leaves all four statistics unchanged |
| RentalLedger.FindRental | store/rental-store.ts:91 | None iff no rental has the id; otherwise the first rental of the list with that id |
| RentalLedger.WithoutRental | store/rental-store.ts:99 | a rental is kept iff it was in the list and has a different id |
| RentalLedger.WithoutAbsentRental | store/rental-store.ts:99 | filtering out an id no rental has returns the list unchanged |
| RentalLedger.FindAfterSetStatus | store/rental-store.ts:70-83 | after the status rewrite, `find` by the id returns the rental it found before, now with the new status (None stays None) |
| RentalLedger.SameStatusAndPriceStats | store/rental-store.ts:124-139 | two rental lists that agree position by position on status and price have the same active count and revenue |
| RentalLedger.StatsSetStatusUnique | store/rental-store.ts:70-87 | changing the status of a rental whose id is unique moves its count and its price from the old status to the new one; the total and the available count are unchanged |
| SeedCatalog.FirstIndexOf | store/rental-store.ts:153 | a position in range whose car has the id, or -1 |
| SeedCatalog.FirstIndexOfIsFindIndex | store/rental-store.ts:153 | the position equals `findIndex` by id |
| SeedCatalog.FirstIndexOfSpec | store/rental-store.ts:153 | no car before the position (or anywhere, for -1) has the id |
| SeedCatalog.FirstIndexOfOccurrence | store/rental-store.ts:153 | for a car at position i, the first position of its id is at most i and holds the same id |
| SeedCatalog.FirstOccurrencesFromMembership | store/rental-store.ts:152-154 | a car is kept iff some position at or after the start holds it and is the first position of its id |
| SeedCatalog.FirstOccurrenceKept | store/rental-store.ts:152-154 | a car at the first position of its id is kept, in front of the rest |
| SeedCatalog.FirstOccurrencesSplit | store/rental-store.ts:151-154 | a block of positions that are each the first of their id is kept whole, in order |
| SeedCatalog.DedupMembership | store/rental-store.ts:152-154 | a car survives deduplication iff it is the car at the first position of its id |
| SeedCatalog.DedupKeepsIds | store/rental-store.ts:152-154 | deduplication keeps every id that occurred |
| SeedCatalog.FirstOccurrencesFromDistinct | store/rental-store.ts:152-154 | the kept cars have pairwise distinct ids |
| SeedCatalog.DedupDistinct | store/rental-store.ts:152-154 | the deduplicated list has pairwise distinct ids |
| SeedCatalog.FirstOccurrencesFromOfDistinct | store/rental-store.ts:152-154 | with distinct ids, everything from the start position is kept |
| SeedCatalog.DedupOfDistinct | store/rental-store.ts:152-154 | a list with distinct ids is left unchanged by deduplication |
| SeedCatalog.SeedPositionIsFirst | store/rental-store.ts:151-153 | a catalogue with distinct ids keeps each of its positions as the first of its id in the joined list |
| SeedCatalog.MergedTailElement | store/rental-store.ts:150-154 | a car kept after the catalogue is a stored car whose id is not a catalogue id |
| SeedCatalog.FirstOccurrencesFrom | store/rental-store.ts:152-154 | the filter that keeps a car iff its position is the first of its id, from a start position on; characterised by `FirstOccurrencesFromMembership` |
| SeedCatalog.Dedup | store/rental-store.ts:152-154 | the whole deduplication; `DedupMembership`, `DedupDistinct` and `DedupKeepsIds` state what it keeps |
| SeedCatalog.MergeSeed | store/rental-store.ts:150-154 | deduplication of the catalogue followed by the stored cars; `MergeSeedShape` states its shape |
| SeedCatalog.MergeSeedShape | store/rental-store.ts:150-155 | for a catalogue whose ids are distinct (a precondition the source does not have), the merged list starts with the whole catalogue, then holds only stored cars with non-catalogue ids (colliding stored cars are dropped), has distinct ids, and its ids are those of catalogue and storage |
| SeedCatalog.CustomCars | store/rental-store.ts:172 | a car is written iff it is in the list and its id is not a catalogue id |
| SeedCatalog.CustomCarsDistinct | store/rental-store.ts:172 | the written cars keep distinct ids |
| SeedCatalog.FilterKeepsDistinct | store/rental-store.ts:172 | filtering a list with distinct ids keeps them distinct |
| SeedCatalog.SaveLoadRoundTrip | store/rental-store.ts:150-177 | with distinct ids, loading what was saved gives the catalogue followed by exactly the saved custom cars |
| SeedCatalog.AddedCarSurvivesRestart | store/rental-store.ts:150-177 | a car added under a new non-catalogue id is found again after saving and reloading |
| Store.RentalStore.constructor | store/rental-store.ts:25-34 | the store starts with empty lists and zero statistics, which are consistent |
| Store.RentalStore.CalculateStats | store/rental-store.ts:124-140 | the statistics become those of the current lists |
| Store.RentalStore.SaveData | store/rental-store.ts:168-181 | storage holds the custom cars, the customers and the rentals |
| Store.RentalStore.AddCar | store/rental-store.ts:36-42 | the car is appended; statistics consistent; storage up to date |
| Store.RentalStore.UpdateCarAvailability | store/rental-store.ts:44-52 | cars become the availability map of the old cars; statistics consistent; storage up to date |
| Store.RentalStore.AddCustomer | store/rental-store.ts:54-59 | the customer is appended; cars, rentals and statistics are outside its frame; storage up to date |
| Store.RentalStore.AddRental | store/rental-store.ts:61-68 | the rental is appended; its car (every car with its id) becomes unavailable; statistics consistent; storage up to date |
| Store.RentalStore.UpdateRentalStatus | store/rental-store.ts:70-87 | only statuses of matching rentals change; the car of the found rental is freed exactly for completed/cancelled, otherwise cars are the old list; statistics consistent |
| Store.RentalStore.RemoveRental | store/rental-store.ts:89-105 | an absent id changes nothing at all (not even storage); otherwise no rental with the id remains, the rental's car is available, statistics consistent, storage up to date |
| Store.RentalStore.UpdateCarLocation | store/rental-store.ts:107-122 | only matching rentals get the new location; statistics of the lists do not change, so consistency is kept without recomputing |
| Store.RentalStore.LoadData | store/rental-store.ts:142-166 | cars are the catalogue merged with the stored cars; missing entries become empty lists; statistics consistent |
| Store.BookingLifecycle | store/rental-store.ts:61-87 | booking, activating and completing a rental of an available catalogue car gives statistics (1,0,0,0), (1,1,0,0), then (1,0,price,1), and frees the car |
| Store.AddCarThenRestart | store/rental-store.ts:142-181 | a car added under a non-catalogue id is in the car list of a store restarted on the same storage |
| RentalProvider.InitialState | providers/rental-provider.tsx:26-37 | empty lists, loading, consistent statistics |
| RentalProvider.LoadData | providers/rental-provider.tsx:70-94 | each missing entry becomes an empty list, each present one is taken as stored, no catalogue is merged; statistics consistent; loading ends |
| RentalProvider.AddCar | providers/rental-provider.tsx:96-107 | the car is appended, other lists unchanged, statistics consistent and equal to the old ones with the available count raised iff the car is available; the new lists are saved |
| RentalProvider.UpdateCarAvailability | providers/rental-provider.tsx:109-122 | cars become the availability map, other lists unchanged, an unknown id leaves the cars as they were; statistics consistent; new lists saved |
| RentalProvider.AddCustomer | providers/rental-provider.tsx:124-133 | the customer is appended; cars, rentals and statistics unchanged; consistency kept; lists saved |
| RentalProvider.AddRental | providers/rental-provider.tsx:135-150 | the rental is appended, every car with its id becomes unavailable, others unchanged; statistics consistent; lists saved |
| RentalProvider.UpdateRentalStatus | providers/rental-provider.tsx:152-177 | only matching statuses change; cars are freed for the found rental exactly on completed/cancelled, otherwise the identical old list; statistics consistent |
| RentalProvider.RemoveRental | providers/rental-provider.tsx:179-203 | an absent id returns the previous state with nothing saved; otherwise no rental with the id remains, the rental's car is available, statistics consistent, lists saved |
| RentalProvider.UpdateCarLocation | providers/rental-provider.tsx:205-224 | matching rentals get the new location; cars, customers and statistics unchanged, and consistency is kept |
| RentalProvider.LoadAfterSave | providers/rental-provider.tsx:54-94 | loading what an updater saved restores the same lists and statistics |
| RentalProvider.UpdateRentalStatusIdempotent | providers/rental-provider.tsx:152-177 | applying the same status update twice gives the state after the first |
| RentalProvider.CompleteActiveRental | providers/rental-provider.tsx:152-177 | completing the one active rental with an id frees its car, lowers the active count by one, adds its price to the revenue, keeps the total |
| Auth.DemoUsers | providers/auth-provider.tsx:7-24 | the two built-in accounts: an administrator then a client, both with ids of the refused kind, with distinct emails |
| Auth.NewUser | providers/auth-provider.tsx:156-160 | the new account: the given fields with the fresh id and creation time; `Register` and `CreateUser` state what is appended |
| Auth.IsDemoId | providers/auth-provider.tsx:246 | the ids updateUser and deleteUser refuse: those starting with `admin-` or `client-`; `NewUserId` never yields one |
| Auth.IsAdmin | providers/auth-provider.tsx:297 | the user is an administrator; `AdminGuard` and `AdminCannotRent` state its consequences |
| Auth.IsClient | providers/auth-provider.tsx:298 | the user is a client; `ClientGuard` and `PaymentGuardOf` state its consequences |
| Auth.HasPaymentMethod | providers/auth-provider.tsx:319-323 | all four card fields present and non-empty; `PaymentGuardOf` and `CompleteCardEnablesRenting` use it |
| Auth.Decimal | providers/auth-provider.tsx:158 | a non-empty string of decimal digits, one digit exactly below ten |
| Auth.DecimalInjective | providers/auth-provider.tsx:158 | different numbers print differently |
| Auth.NewUserId | providers/auth-provider.tsx:158 | a new id starts with `user-` and is never of the built-in kind |
| Auth.NewUserIdInjective | providers/auth-provider.tsx:226 | ids made at different clock readings differ |
| Auth.Overlay | providers/auth-provider.tsx:258 | fields the patch leaves out keep the user's value; a given email replaces the user's |
| Auth.OverlayIdempotent | providers/auth-provider.tsx:258 | overlaying the same patch twice equals overlaying it once |
| Auth.LookupForLogin | providers/auth-provider.tsx:59-69 | the account found has the email and comes from the built-in or registered list; none iff neither list has the email; when a built-in account has the email, the first such built-in account; otherwise the first registered account with it |
| Auth.DemoEmailsResolveToDemoUsers | providers/auth-provider.tsx:56-69 | the two built-in emails resolve to the two built-in accounts whatever is registered |
| Auth.RegisteredUserCanLogin | providers/auth-provider.tsx:56-69 | a user appended under an unused email is the account login finds |
| Auth.RemoveUsers | providers/auth-provider.tsx:277 | a user is kept iff it was present and has another id |
| Auth.RemoveUsersIdempotent | providers/auth-provider.tsx:268-285 | deleting the same id twice equals deleting it once |
| Auth.RemoveAbsentUser | providers/auth-provider.tsx:268-285 | deleting an id nobody has leaves the list as it is |
| Auth.AppendKeepsUniqueEmails | providers/auth-provider.tsx:135-168 | appending a user under an unused email keeps emails unique |
| Auth.AppendUnique | providers/auth-provider.tsx:215-236 | the same, for the built-in accounts followed by the registry |
| Auth.DemoEmailsIgnoreTime | providers/auth-provider.tsx:182-202 | whether a built-in account has an email does not depend on when the list is made |
| Auth.AdminGuard | providers/auth-provider.tsx:307-310 | grants exactly when authenticated and the user is an administrator; loading flag passed through |
| Auth.ClientGuard | providers/auth-provider.tsx:312-315 | grants exactly when authenticated and the user is a client; loading flag passed through |
| Auth.PaymentGuardOf | providers/auth-provider.tsx:317-332 | the two fields the screens read: `hasPaymentMethod` iff a user is signed in whose card number, holder, expiry and security code are all non-empty, and `isClient` iff the user is a client; `isAuthenticated` and `isLoading` pass through; may rent iff authenticated, a client and holding such a card, and then the client guard passes and the admin guard does not |
| Auth.CompleteCardEnablesRenting | providers/auth-provider.tsx:317-331 | a signed-in client who stores a complete card may rent |
| Auth.AdminCannotRent | providers/auth-provider.tsx:297-331 | an administrator never may rent and never passes the client guard |
| Auth.AuthProvider.constructor | providers/auth-provider.tsx:26-31 | starts signed out and loading, consistent with storage |
| Auth.AuthProvider.LoadStoredUser | providers/auth-provider.tsx:33-50 | a stored user becomes the signed-in user; otherwise only loading ends; consistency kept |
| Auth.AuthProvider.Login | providers/auth-provider.tsx:56-85 | succeeds iff an account has the email and the password is the fixed one; then that account is signed in and stored; otherwise nothing changes |
| Auth.AuthProvider.Logout | providers/auth-provider.tsx:87-98 | signed out, stored session removed |
| Auth.AuthProvider.UpdatePaymentInfo | providers/auth-provider.tsx:100-133 | fails exactly when nobody is signed in, changing nothing; otherwise the card is set on the session user, stored, and on the first registry entry with that id if one exists |
| Auth.AuthProvider.Register | providers/auth-provider.tsx:135-180 | succeeds iff no built-in or registered account has the email; then exactly one new user is appended and signed in; otherwise nothing changes; unique emails are kept |
| Auth.AuthProvider.GetAllUsers | providers/auth-provider.tsx:182-213 | the two built-in accounts first, then the registry entries in their order, duplicates kept |
| Auth.AuthProvider.CreateUser | providers/auth-provider.tsx:215-241 | succeeds iff no known user has the email; then one user is appended, the session untouched; unique emails are kept |
| Auth.AuthProvider.UpdateUser | providers/auth-provider.tsx:243-266 | fails and changes nothing for built-in-kind or unknown ids; otherwise only the first entry with the id changes, overlaid with the patch |
| Auth.AuthProvider.DeleteUser | providers/auth-provider.tsx:268-285 | fails and changes nothing for built-in-kind ids; otherwise every entry with the id is removed, the rest kept |
| Language.IsWhitespace | providers/language-provider.tsx:19 | the characters `trim` removes: the ECMAScript white space and line terminators |
| Language.TrimStart | providers/language-provider.tsx:19 | the suffix left after the leading whitespace, starting with non-whitespace |
| Language.TrimEnd | providers/language-provider.tsx:19 | the prefix left before the trailing whitespace, ending with non-whitespace |
| Language.Trim | providers/language-provider.tsx:19 | empty exactly for all-whitespace input; otherwise neither starts nor ends with whitespace |
| Language.TrimIdempotent | providers/language-provider.tsx:43-47 | trimming twice equals trimming once |
| Language.TrimStartPadding | providers/language-provider.tsx:43 | leading whitespace before a word is removed exactly |
| Language.TrimEndPadding | providers/language-provider.tsx:43 | trailing whitespace after a word is removed exactly |
| Language.TrimRemovesPadding | providers/language-provider.tsx:43 | whitespace around a word is removed and the word kept |
| Language.IsValidLanguage | providers/language-provider.tsx:14-20 | valid iff the trimmed input is one of the ten codes; a valid trimmed code has two characters |
| Language.WhitespaceIsNotALanguage | providers/language-provider.tsx:15-17 | empty or whitespace-only input is never valid |
| Language.Utf16Length | providers/language-provider.tsx:63 | JavaScript's `.length`: UTF-16 code units, between the number of characters and twice that |
| Language.Utf16LengthAstral | providers/language-provider.tsx:63 | characters outside the Basic Multilingual Plane count twice |
| Language.LengthGuardRedundant | providers/language-provider.tsx:43-46 | a trimmed input over ten UTF-16 units is never valid |
| Language.SanitizedKey | providers/language-provider.tsx:58-65 | a key is looked up iff its trimmed form is non-empty and at most 100 UTF-16 units long, and then the trimmed form is used |
| Language.LongAstralKeyRefused | providers/language-provider.tsx:62-65 | a key of more than fifty characters outside the Basic Multilingual Plane is refused |
| Language.LanguageProvider.constructor | providers/language-provider.tsx:10-12 | starts in the default language, not loaded |
| Language.LanguageProvider.LoadSavedLanguage | providers/language-provider.tsx:22-33 | adopts the trimmed saved code iff it is valid, otherwise keeps the current one; loaded in every case |
| Language.LanguageProvider.SetLanguage | providers/language-provider.tsx:39-56 | a valid code is stored and adopted in trimmed form; anything else changes neither the language nor storage |
| Language.LanguageProvider.Translate | providers/language-provider.tsx:58-67 | the empty string for blank keys or keys over 100 UTF-16 units; otherwise the fallback lookup of the trimmed key in the current language |
| Language.LanguageProvider.TranslateIgnoresPadding | providers/language-provider.tsx:58-67 | whitespace around a key does not change its translation |
| Language.LanguageProvider.IsRTL | providers/language-provider.tsx:69 | right-to-left iff the current language is Arabic |
| Language.ChooseArabic | providers/language-provider.tsx:39-69 | choosing Arabic, whitespace around it or not, makes it current and the layout right-to-left |
| Locales.GetTranslation | locales/index.ts:28-30 | the language's own string when present and non-empty; otherwise the Portuguese entry, or none when Portuguese lacks the key |
| Locales.PortugueseLookup | locales/index.ts:29 | for Portuguese the result is always its own entry |
| Locales.LookupDependsOnTwoTables | locales/index.ts:29 | the result depends only on the asked language's table and the Portuguese one |
| Locales.PortugueseKeysAlwaysTranslate | locales/index.ts:29 | every key Portuguese has is translated in every language |
| Locales.WellFormedHasTen | locales/index.ts:13-24 | a table with an entry for exactly the ten codes has ten entries, Portuguese among them |
| Locales.CodeLength | providers/language-provider.tsx:18 | every code is two characters long |
| Locales.LanguageCodesDistinct | providers/language-provider.tsx:18 | the ten codes are pairwise distinct |

## Left out

- Storage is a set of fields holding optional values. The following are
  not modelled:
  - JSON text, parse errors and typed storage failures.
  - The `try`/`catch` paths that log and swallow them. An action whose
    storage write fails still changes the in-memory state in the source;
    the model assumes every write succeeds.
- Storage writes are modelled as finishing at once, in program order. The
  source does not await `saveData` in the ledgers, and `Promise.all` runs
  the three writes concurrently. Interleavings of overlapping saves are
  concurrency and are not modelled.
- The seed catalogue (`VIP_CARS`, in data/cars) and the default language
  (in constants/languages) are parameters. data/cars and
  constants/languages are not part of this model.
- The locale string tables are abstract maps from key to string.
  locales/pt.ts and locales/en.ts are not part of this model, and the
  other string tables are not used.
- A missing translation is `None` where the source returns `undefined`.
- Prices are whole numbers (cents) instead of floating-point numbers.
  Coordinates are reals.
- `Date.now()` in new user ids and the ISO timestamps (user creation,
  location updates) are parameters. The built-in accounts' creation time
  is the provider's `demoCreatedAt`; `getAllUsers` stamps fresh copies
  with its own parameter.
- `typeof` checks are not modelled: the model's types already exclude
  non-strings. JavaScript's truthiness of the empty string is written out
  as explicit emptiness tests.
- Auth.Overlay: states only the id, email and role fields. The other
  fields follow the same rule in the body. A patch key that is present
  but holds `undefined` (which erases the field in JavaScript) is not
  modelled.
- Auth.AuthProvider.UpdateUser: like the source, it does not re-check
  email uniqueness. So it does not keep `EmailsUnique`, and no such
  postcondition is claimed.
- Auth.AuthProvider.Login: the model reads the registry from the
  provider's `registered` field. The source reads it from storage at the
  moment of the call; the two are the same entry.
- SeedCatalog.MergeSeedShape: requires the catalogue's ids to be distinct, which the
  source does not check. Without it the catalogue's own duplicates are dropped
  too, and the merged list need not start with the whole catalogue.
- RentalProvider.CompleteActiveRental: requires the completed rental to be
  active and its id to be unique. Without these the active count does not
  fall by exactly one.
- The React hook machinery (`useState`, `useCallback`, effects, context)
  is not modelled. In the provider ledger each updater is a function from
  the previous state; the auth and language providers are classes whose
  methods are the callbacks.
- Screens, navigation, alerts, GPS polling and the locale string contents
  are outside the core and are not modelled.
