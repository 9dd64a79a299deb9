# Nexus portal: booking vault and header name, in Dafny

This project models the two pieces of logic in the Nexus pet-grooming
portal, a client-side single-page app.

- **The booking vault** (`src/app/page.tsx`). This is the page's list of
  bookings and its pet roster. Both are loaded from two entries of the
  browser's key-value store, `nexus_vault_data` and `nexus_pet_data`.
  - The save handler either reschedules an existing booking or puts a new
    one at the front. In this page nothing calls the handler, and the
    service cards set only id-less contexts, so only the handler as written
    is modelled, for any context of its declared type.
  - The id of a new booking is the clock value. After a save, the whole
    list is written back to the store, a toast is shown and the scheduling
    context is cleared.
  - Deleting a booking filters it out of the in-memory list only.
  - Module `Vault` holds the list transformations as functions
    (`Rescheduled`, `WithoutId`, `Saved`) and the page's state as class
    `Portal`. Its methods (`Mount`, `Schedule`, `SaveBooking`, `Delete`,
    `ClearToast`) update `bookings`, `pets`, `stored`, `toast`, `scheduling`
    and `mounted`.
- **The business name in the header** (`src/components/Header.tsx`, and the
  earlier `src/components/header.tsx`). The name comes from the first
  non-empty `/`-separated segment of the URL path. That segment is split on
  `-`, each word gets its first character upper-cased, and the words are
  joined with spaces. A path with no segment shows "Nexus Portal", and
  before the effect runs the header shows "Loading...".
  - Module `Header` holds that derivation and the formatting shared by both
    variants.
  - Module `EarlyHeader` holds the earlier variant and proves it agrees
    with `Header` on every path.
  - Module `JsStrings` models the JavaScript built-ins both variants use:
    `split` on one character, `join`, `filter(Boolean)` and ASCII
    `toUpperCase`.

Two independent reference definitions back the header model.
`Header.TitleCase` describes the formatting character by character, and
`Header.FirstSegment` says which part of the path is used. Lemmas prove the
split/filter/map/join chain equal to each of them.

Facts about the page's code that the model keeps:
- Delete changes only the in-memory list; it does not write the store.
- Saving does not check that the date or the time is non-empty.
- The page creates, edits and deletes no pets; it only loads the roster.
- Loading parses the stored values without any recovery from corrupt data.
- The context id is tested for truthiness, so a context whose id is `0`
  creates a new booking (`Vault.ZeroIdCreates`).

## Model

| member | source | states |
|---|---|---|
| Vault.IsReschedule | src/app/page.tsx:53 | the truthiness test of the context id: present and not 0 |
| Vault.NewBooking | src/app/page.tsx:55 | the created record: the clock value as id, service and price from the context, date and time from the arguments |
| Vault.Saved | src/app/page.tsx:53-55 | the saved list has the old length for a reschedule and one more otherwise; a new booking goes in front with the clock value as id and the old list after it |
| Vault.WithoutId | src/app/page.tsx:113 | the delete never lengthens the list and leaves no booking with the id |
| Vault.Rescheduled | src/app/page.tsx:54 | a reschedule keeps the number of bookings |
| Vault.RescheduledAt | src/app/page.tsx:53-54 | at every position, a booking with the id keeps its id, service and price and takes the new date and time; any other booking is unchanged |
| Vault.RescheduledAbsent | src/app/page.tsx:54 | rescheduling an id no booking has leaves the list equal to the old one |
| Vault.SavedShape | src/app/page.tsx:53-55 | a reschedule keeps the length and the ids in order, and is the identity for an absent id; otherwise the result is the new booking (id = clock value, service and price from the context, date and time from the arguments) followed by the old list, one longer |
| Vault.ZeroIdCreates | src/app/page.tsx:53 | a context id of 0 is falsy, so saving creates a new booking in front |
| Vault.CreateMoveDelete | src/app/page.tsx:53-55 | create then reschedule then delete of one booking gives one booking, then that booking on the new slot, then an empty list (for a non-zero clock value) |
| Vault.WithoutIdMembers | src/app/page.tsx:113 | a booking is in the result exactly when it was in the list and has another id |
| Vault.WithoutIdAppend | src/app/page.tsx:113 | deleting from a concatenation deletes from each part, so the remaining bookings keep their relative order |
| Vault.WithoutIdLength | src/app/page.tsx:113 | the result is shorter by exactly the number of bookings with the id |
| Vault.WithoutIdAbsent | src/app/page.tsx:113 | deleting an id no booking has leaves the list unchanged |
| Vault.WithoutIdIdempotent | src/app/page.tsx:113 | deleting the same id twice is deleting it once |
| Vault.Portal.constructor | src/app/page.tsx:18-27 | initial state: no bookings, no pets, no toast, no scheduling context, not mounted, store as given |
| Vault.Portal.Mount | src/app/page.tsx:30-36 | each collection takes the list stored under its own key when that key is present and is otherwise unchanged; nothing is written |
| Vault.Portal.Schedule | src/app/page.tsx:100-101 | selecting a service sets the scheduling context and changes nothing else |
| Vault.Portal.SaveBooking | src/app/page.tsx:51-60 | without a context nothing changes; with one, bookings become the saved list, the vault entry of the store equals the new bookings, the pet entry is untouched, the toast is "Schedule Updated" exactly for a truthy id and "Booking Confirmed" otherwise, and the context is cleared |
| Vault.Portal.Delete | src/app/page.tsx:113 | bookings lose exactly the entries with the id; store, pets, toast and context are unchanged |
| Vault.Portal.ClearToast | src/app/page.tsx:61 | the toast timer's callback clears the toast and nothing else |
| Vault.Open | src/app/page.tsx:16-36 | after the first render and the mount effect, each collection is what its key holds, or empty when its key is absent, independently of the other key |
| JsStrings.Split | src/components/Header.tsx:18 | `split` gives one more piece than there are separators, and no piece holds the separator |
| JsStrings.NonEmpty | src/components/Header.tsx:18 | `filter(Boolean)` keeps exactly the non-empty pieces: every kept piece is non-empty and from the input, and every non-empty input piece is kept |
| JsStrings.NonEmptyAppend | src/components/Header.tsx:18 | filtering a concatenation filters each part, so the kept pieces stay in order |
| JsStrings.Join | src/components/Header.tsx:29 | `join`: the pieces with the separator between consecutive ones (its partner lemmas are JoinSplit and SplitJoin) |
| JsStrings.Upper | src/components/Header.tsx:28 | ASCII `toUpperCase`: 'a'..'z' map to 'A'..'Z', every other character is kept |
| JsStrings.JoinSplit | src/components/Header.tsx:27-29 | joining the pieces of a split with the separator gives the string back |
| JsStrings.SplitJoin | src/components/header.tsx:19-22 | splitting a join gives the pieces back when no piece holds the separator |
| Header.FormatSlug | src/components/Header.tsx:26-29 | the slug split on `-`, each word capitalized, joined by single spaces (its properties are the FormatSlug lemmas below) |
| Header.BusinessName | src/components/Header.tsx:18-34 | the derivation in the effect: first non-empty part, formatted if truthy, else the fallback (see BusinessNameIsFirstSegment) |
| Header.Capitalize | src/components/Header.tsx:28 | a word keeps its length and every character after the first; the first is upper-cased (ASCII) |
| Header.CapitalizeIdempotent | src/components/Header.tsx:28 | capitalizing a capitalized word changes nothing |
| Header.FormatSlugIsTitleCase | src/components/Header.tsx:26-29 | the split/map/join chain equals the character-by-character reference `TitleCase` |
| Header.TitleCaseAt | src/components/Header.tsx:26-29 | the reference keeps the length; each `-` becomes a space, a character that starts a word is upper-cased, any other is kept |
| Header.FormatSlugShape | src/components/Header.tsx:26-29 | the name has the slug's length, holds no `-`, and holds no `/` unless the slug does; each position is given explicitly |
| Header.FormatSlugWords | src/components/Header.tsx:27-29 | for a slug without spaces, splitting the name on spaces gives the capitalized `-`-words, empty ones included: one more word than the slug has `-` |
| Header.DashSeparatorsRoundTrip | src/components/header.tsx:19-22 | joining the capitalized words with `-` gives the slug with only each word's first character upper-cased and every `-` in place (equal to the reference `DashCase`, position by position), and splitting it on `-` gives the same words back |
| Header.DashCaseAt | src/components/header.tsx:19-22 | the reference `DashCase` keeps the length; a character that starts a word and is not `-` is upper-cased, any other is kept |
| Header.FormatSlugIdempotent | src/components/Header.tsx:26-29 | formatting a formatted name changes nothing |
| Header.FirstPartIsFirstSegment | src/components/Header.tsx:18-22 | the filtered parts are empty exactly when the path has no segment; otherwise the first part is the first segment |
| Header.BusinessNameIsFirstSegment | src/components/Header.tsx:18-34 | the name is the fallback when the path has no segment and the formatted first segment otherwise |
| Header.FallbackWithoutSegment | src/components/Header.tsx:22-33 | a path of slashes only, such as "" or "/", shows "Nexus Portal" |
| Header.LeadingSlashIrrelevant | src/components/Header.tsx:18 | a leading `/` does not change the name |
| Header.LaterSegmentsIrrelevant | src/components/Header.tsx:18-22 | a trailing `/` and any later segments do not change the name |
| Header.NameHasNoSeparators | src/components/Header.tsx:24-34 | the shown name never holds `-` or `/` |
| Header.NameDisplay.constructor | src/components/Header.tsx:7 | before the effect runs the name is "Loading..." |
| Header.NameDisplay.Effect | src/components/Header.tsx:9-35 | without a `window` the name is unchanged; otherwise it becomes the derived name |
| EarlyHeader.Slug | src/components/header.tsx:15 | the slug: the first non-empty part, undefined when there is none (see SlugIsFirstSegment) |
| EarlyHeader.BusinessName | src/components/header.tsx:15-27 | this variant's derivation, without a length check (see AgreesWithHeader) |
| EarlyHeader.FirstOrUndefined | src/components/header.tsx:15 | `[0]` is undefined exactly for an empty array, and the first element otherwise |
| EarlyHeader.SlugIsFirstSegment | src/components/header.tsx:15 | the slug is the first path segment, or undefined when there is none |
| EarlyHeader.FallbackWithoutParts | src/components/header.tsx:15-26 | when the filtered parts are empty the slug is undefined and the name is "Nexus Portal" |
| EarlyHeader.AgreesWithHeader | src/components/header.tsx:15-27 | this variant derives the same name as `Header` for every path |
| EarlyHeader.SegmentBetweenSlashes | src/components/header.tsx:14-15 | a path "/seg/" has slug seg and shows seg formatted |
| EarlyHeader.IslandDogPetWash | src/components/header.tsx:14-18 | "/island-dog-pet-wash/" has the slug "island-dog-pet-wash" and the name "Island Dog Pet Wash" |
| EarlyHeader.NameDisplay.constructor | src/components/header.tsx:7 | before the effect runs the name is "Loading..." |
| EarlyHeader.NameDisplay.Effect | src/components/header.tsx:9-28 | the name becomes the derived name, equal to `Header`'s |

## Left out

- `getAvailableDates` (src/app/page.tsx:40-49) is left out. It reads the
  wall clock and formats dates for a locale.
- JSX rendering, animation, the `ServiceCard` and `NavBtn` components and
  tab switching are left out. They are presentation only.
- `JSON.stringify`/`JSON.parse` and `localStorage` itself are left out. The
  store is a map from key to an already-parsed list.
  - Serialisation is not modelled.
  - A stored value that is the empty string is falsy in the source and
    would be skipped on load; the model cannot represent it.
  - A stored value that does not parse is not modelled (the source would
    throw).
  - A value whose shape does not match its key is excluded by
    `WellShaped`.
- `Date.now()` becomes the parameter `now` of `SaveBooking`. Nothing makes
  booking ids unique, and the model claims no uniqueness.
- The toast timer (src/app/page.tsx:61) becomes the separate step
  `ClearToast`. Calling it after two saves clears the newer toast, as an
  earlier timer can. The three-second delay and which timer fired are not
  modelled.
- `typeof window === "undefined"` (src/components/Header.tsx:11) is modelled
  by passing the path as an optional value.
- Upper-casing covers ASCII letters only. JavaScript's full Unicode
  `toUpperCase` can change a string's length.
- `src/app/layout.tsx` and `next.config.ts` are left out. They hold
  configuration and framework metadata with no behaviour to verify.
- Vault.Portal.Schedule: in this page nothing calls the save handler, and
  the only contexts set (src/app/page.tsx:100-101) carry no id, so the
  reschedule branch cannot be reached from the page. The model covers the
  handler as written for any context of the declared type
  (src/app/page.tsx:23).
- Header.FormatSlugWords: requires a slug without spaces. A space already in
  the slug would add extra space-separated words, so the word count holds
  only then.
