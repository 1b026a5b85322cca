# PadFinder core, modelled in Dafny

PadFinder is a mobile app for browsing launches and launch pads. This project models
the small, self-contained logic it is built on. Each part is its own module:

- `Logger` (`logger.dfy`): the bounded in-app log buffer. `log` appends an entry
  `{timestamp, level, message}`, keeps only the newest `MaxLogs` = 500 entries and rewrites
  the persisted copy. `getLogs` reads the buffer and `clearLogs` empties it. At startup the
  buffer is loaded from what storage holds under "logs".
- `FormatDate` (`format_date.dfy`): `formatLaunchDate`, which renders a launch date at the
  precision the record declares: year, half, quarter, month, day or hour, with anything else
  falling back to hour. The day.js tokens it uses are written out for the English locale with
  the advanced-format plugin: `YYYY`, `Q`, `MMMM`, `Do`, `h`, `mm` and `a`.
- `Colors` (`colors.dfy`): the light and dark palettes and their `scheme_colors` tables.
- `Themed` (`themed.dfy`): `useThemeColor` resolves a component's colour in a fixed priority
  order: the "default" variant, then a scheme colour, then the prop for the current theme, then
  the palette. The module also covers the font size and weight `Text` derives from a heading
  level. The two hook reads, the device colour scheme and the variant store's value, are
  parameters.
- `ThemedButton` (`themed_button.dfy`): each button variant's background, border colour,
  border width and label variant.
- `Mmkv` (`mmkv.dfy`): the two MMKV instances and the `exampleStorage` / `spaceXStorage`
  get/set/remove adapters. Each instance is a class holding a `map<string, string>`.
- `ExampleStore`, `SpaceXStore`, `LoaderStore`, `VariantStore`: the one-field zustand stores
  (counter, first-run flag, loader flag, current colour variant), each a class. The action
  reducers are functions, with lemmas about sequences of actions.
- `Wrappers` (`wrappers.dfy`): `Option`, for JavaScript's `undefined` / `null`.
- `Strings` (`strings.dfy`): `EndsWith`, shared by the logger and the date formatter.

## Model

| member | source | states |
|---|---|---|
| Logger.JoinArgs | utils/logger.ts:32 | a single argument is the whole message, spaces and all; with more, the message begins with the first argument and ends with the last; it is empty with no arguments (with `JoinConcat` this fixes the message for every input) |
| Logger.JoinConcat | utils/logger.ts:32 | for any non-empty split of the arguments, spaces inside them or not, the message is the first part's message, one space, then the second part's message |
| Logger.SplitJoinArgs | utils/logger.ts:32 | splitting the message at spaces gives back the arguments when none contains a space: the arguments are joined by single spaces |
| Logger.Rotated | utils/logger.ts:42-45 | rotation keeps exactly the last min(length, 500) entries, in order |
| Logger.AfterLog | utils/logger.ts:39-45 | after `log` the list has min(old length + 1, 500) entries. The last is the new entry and the rest are the newest of the old entries in their old order, even when the old list was over 500 |
| Logger.RotatedAbsorbs | utils/logger.ts:43-45 | rotating earlier never changes what a later rotation keeps |
| Logger.LogAllKeepsNewest | utils/logger.ts:40-45 | any non-empty run of `log` calls leaves the newest 500 entries of old list ++ new entries: oldest-first eviction |
| Logger.OverflowEvictsOldest | utils/logger.ts:40-45 | logging 501 entries into an empty buffer keeps the last 500 and drops only the first |
| Logger.LoadLogs | utils/logger.ts:12-20 | the startup list is the decoded stored list when there is one, otherwise empty |
| Logger.LogBuffer.constructor | utils/logger.ts:12-20 | startup loads the stored list (without trimming it) and leaves storage as it was |
| Logger.LogBuffer.PersistLogs | utils/logger.ts:23 | storage then holds the in-memory list |
| Logger.LogBuffer.Log | utils/logger.ts:31-48 | the list becomes `AfterLog` of the old list and an entry with the given timestamp, level and joined message; the persisted copy equals the list |
| Logger.LogBuffer.GetLogs | utils/logger.ts:57 | returns the list and changes neither it nor the persisted copy |
| Logger.LogBuffer.ClearLogs | utils/logger.ts:58-61 | the list is empty and the persisted copy equals it |
| FormatDate.YearToken | utils/formatDate.ts:10-11 | `YYYY` is at least four characters and ends with all of the year's digits, so a wider year is not truncated |
| FormatDate.YearTokenDigits | utils/formatDate.ts:10-11 | `YYYY` is all digits, reads back as the year, and is four characters for years up to 9999 |
| FormatDate.QuarterOf | utils/formatDate.ts:17-18 | the quarter is 1 to 4 and is ceil((month + 1) / 3) |
| FormatDate.MonthName | utils/formatDate.ts:20-21 | a month name is a single word |
| FormatDate.OrdinalSuffix | utils/formatDate.ts:23-24 | the English locale's table lookup for `Do` gives the usual English suffix: st/nd/rd by last digit, th for 11-13 and the rest |
| FormatDate.Hour12 | utils/formatDate.ts:26-27 | `h` is in 1..12 and agrees with the 24-hour clock modulo 12 |
| FormatDate.MinuteToken | utils/formatDate.ts:26-27 | `mm` is exactly two characters, the second being the minute's last digit |
| FormatDate.Meridiem | utils/formatDate.ts:26-27 | `a` is "am" exactly before noon and "pm" exactly from noon on |
| FormatDate.MinuteTokenDigits | utils/formatDate.ts:26-27 | `mm` is two digits that read back as the minute |
| FormatDate.PrecisionOf | utils/formatDate.ts:9-30 | the `switch` on the tag: each of the six known strings selects its own case and no other string does; anything else falls back as `Unrecognised` carrying the tag |
| FormatDate.FormatLaunchDate | utils/formatDate.ts:3-31 | every output is at least four characters; an unrecognised precision falls back to the hour text |
| FormatDate.YearShowsOnlyYear | utils/formatDate.ts:10-11 | year precision shows only the year: digits that read back as the year, four of them up to 9999 |
| FormatDate.HalfYearRule | utils/formatDate.ts:13-14 | half precision is "YYYY (H1)" exactly when the zero-based month is below 6 and "YYYY (H2)" exactly otherwise |
| FormatDate.HalfYearExamples | utils/formatDate.ts:13-14 | a March 2024 date shows "2024 (H1)" and a September 2024 date "2024 (H2)" |
| FormatDate.QuarterShape | utils/formatDate.ts:17-18 | quarter precision starts with "Q", then the quarter digit, a space, and ends with the year |
| FormatDate.MonthShape | utils/formatDate.ts:20-21 | month precision is the month name, one space, then the year |
| FormatDate.UnrecognisedIsHour | utils/formatDate.ts:26-30 | an unrecognised precision gives exactly the hour output |
| FormatDate.DayPrefixOfHour | utils/formatDate.ts:23-27 | the day output is a prefix of the hour output, which continues with " at " |
| Colors.PaletteColor | constants/Colors.ts:5-25 | every palette entry is non-empty |
| Colors.SchemeColorOf | constants/Colors.ts:12-32 | every scheme colour is non-empty, hence truthy |
| Colors.SchemeColorsShared | constants/Colors.ts:12-32 | a scheme colour is the same in both themes exactly when it is not `alt` |
| Colors.GhostIsTransparent | constants/Colors.ts:17-32 | `ghost` is "transparent" in both themes |
| Colors.TextBackgroundSwapped | constants/Colors.ts:5-22 | text and background swap between light and dark and differ within a theme |
| Colors.TabIconSelectedIsTint | constants/Colors.ts:1-25 | in each theme the selected tab icon colour is the tint |
| Themed.ResolveTheme | components/Themed.tsx:52 | the theme is the device scheme, or light when that is unknown |
| Themed.EffectiveVariant | components/Themed.tsx:53-54 | an explicit variant prop wins; the store's variant is used only without one |
| Themed.UseThemeColor | components/Themed.tsx:44-72 | the resolved colour is never empty |
| Themed.DefaultVariantIsText | components/Themed.tsx:56-59 | the "default" variant gives the theme's text colour whatever the colour name and per-theme props |
| Themed.SchemeVariantWins | components/Themed.tsx:61-64 | a scheme variant gives that scheme colour and ignores the per-theme props and colour name |
| Themed.NoVariantUsesPropOrPalette | components/Themed.tsx:66-71 | with no variant, a non-empty prop for the current theme wins, otherwise the palette entry for the colour name |
| Themed.ExplicitVariantIgnoresStore | components/Themed.tsx:53-54 | with a variant prop, the store's variant does not affect the colour |
| Themed.UseThemeColorIsPriorityList | components/Themed.tsx:52-71 | the resolution equals the first present candidate of default variant, scheme colour, theme prop, falling back to the palette |
| Themed.HeadingSize | components/Themed.tsx:35-42 | heading sizes lie between 16 and 32 |
| Themed.HeadingSizesDecrease | components/Themed.tsx:35-42 | sizes strictly decrease from h1 to h6 |
| Themed.FontSize | components/Themed.tsx:81-94 | the size is set exactly when a heading is given, and is its preset size times `multiple`, which defaults to 1 |
| Themed.FontWeight | components/Themed.tsx:96-103 | a weight is set exactly for h1, h2 and h3 |
| Themed.FontWeightValues | components/Themed.tsx:96-103 | h1, h2 and h3 weigh "700", "600" and "500" |
| Themed.TextStyleOf | components/Themed.tsx:74-104 | `Text`'s colour is `useThemeColor` for "text" with its own light/dark/variant props, so never empty; its font size is the heading size times `multiple` and is set exactly when a heading is given; its weight is the heading's weight |
| Themed.ViewBackground | components/Themed.tsx:114-119 | `View`'s background is `useThemeColor` for "background" with its own light/dark/variant props, so never empty |
| ThemedButton.ButtonStyleOf | components/ThemedButton.tsx:29-69 | the border is 1 wide exactly for ghost and 0 otherwise; the label variant is "primary" exactly for link and linkButton and "default" otherwise |
| ThemedButton.BackgroundByVariant | components/ThemedButton.tsx:40-47 | background is the scheme primary/secondary for those variants, transparent for ghost and the links, and the theme background for default |
| ThemedButton.BorderByVariant | components/ThemedButton.tsx:49-56 | border is the theme text colour for ghost, the scheme colour for primary/secondary, and transparent otherwise |
| ThemedButton.FilledButtonsMatchBorder | components/ThemedButton.tsx:40-56 | primary and secondary buttons have background equal to border colour |
| ThemedButton.Defaults | components/ThemedButton.tsx:32-37 | no variant means "default", and an unknown scheme means light |
| ThemedButton.LabelColor | components/ThemedButton.tsx:58-92 | the label is the scheme primary for links and the theme text colour otherwise, whatever variant the store holds |
| Mmkv.ReadBack | store/mmkv.ts:18-21 | `getItem` yields the stored string exactly when the key is present with a non-empty value, otherwise null |
| Mmkv.StorageAdapter.SetItem | store/mmkv.ts:15-17 | the backing map gains key -> value and nothing else changes |
| Mmkv.StorageAdapter.GetItem | store/mmkv.ts:18-21 | returns `ReadBack` of the backing map and changes nothing |
| Mmkv.StorageAdapter.RemoveItem | store/mmkv.ts:22-24 | the key leaves the backing map and nothing else changes |
| Mmkv.SetThenGet | store/mmkv.ts:15-21 | a set value reads back unchanged, except that the empty string reads back as null |
| Mmkv.RemoveThenGet | store/mmkv.ts:18-24 | a removed key reads back as null |
| Mmkv.OtherKeysUnchanged | store/mmkv.ts:15-24 | setting or removing one key leaves every other key's reading unchanged |
| Mmkv.Storages.constructor | store/mmkv.ts:4-37 | two distinct instances, each opened over what earlier sessions stored under its id; both adapters are over MMKVStorage |
| Mmkv.SharedBacking | store/mmkv.ts:27-37 | a write through `spaceXStorage` is what `exampleStorage` reads next, and MMKVSpaceXStorage is left untouched |
| Mmkv.IsolatedBacking | store/mmkv.ts:9-12 | with `spaceXStorage` over MMKVSpaceXStorage, its writes leave what `exampleStorage` reads unchanged |
| ExampleStore.CounterStore.constructor | store/exampleStore.ts:16 | the count starts at 0 (a first launch; later launches rehydrate the persisted count) |
| ExampleStore.CounterStore.Increment | store/exampleStore.ts:17 | adds exactly 1 |
| ExampleStore.CounterStore.Decrement | store/exampleStore.ts:18 | subtracts exactly 1, with no lower bound |
| ExampleStore.CounterStore.Reset | store/exampleStore.ts:19 | sets the count to 0 from any state |
| ExampleStore.IncrementThenDecrement | store/exampleStore.ts:17-18 | increment then decrement restores the count |
| ExampleStore.DecrementFromFresh | store/exampleStore.ts:16-18 | a fresh store decremented once holds -1 |
| ExampleStore.ReplayWithoutReset | store/exampleStore.ts:17-18 | without a reset, the count moves by the number of increments minus the number of decrements |
| ExampleStore.ResetForgets | store/exampleStore.ts:17-19 | after a reset, the count depends only on the actions since it |
| SpaceXStore.TogglesParity | store/spaceXStore.ts:14-16 | after n toggles the flag equals its start value exactly when n is even, so from the initial true it is true iff n is even |
| SpaceXStore.DoubleToggle | store/spaceXStore.ts:15-16 | two toggles restore the value |
| SpaceXStore.FirstRunStore.constructor | store/spaceXStore.ts:14 | the flag starts true (a first launch; later launches rehydrate the persisted flag) |
| SpaceXStore.FirstRunStore.ToggleFirstTime | store/spaceXStore.ts:15-16 | negates the flag and keeps it equal to the parity of the number of toggles |
| SpaceXStore.FirstRunStore.IsFirstTime | store/spaceXStore.ts:14-16 | the flag reads true exactly when it has been toggled an even number of times |
| LoaderStore.Loader.constructor | store/loaderStore.ts:11 | the flag starts false |
| LoaderStore.Loader.ShowLoader | store/loaderStore.ts:12 | sets the flag true from any state |
| LoaderStore.Loader.HideLoader | store/loaderStore.ts:13 | sets the flag false from any state |
| LoaderStore.LastActionWins | store/loaderStore.ts:12-13 | after any non-empty run of show/hide calls, the flag is set exactly when the last call was show |
| LoaderStore.Idempotent | store/loaderStore.ts:12-13 | repeating an action changes nothing |
| LoaderStore.Loader.OverlayVisible | components/Loader/LoaderOverlay.tsx:7-10 | the overlay renders exactly when the flag is set |
| VariantStore.VariantState.constructor | store/variantStore.ts:13 | the variant starts undefined |
| VariantStore.VariantState.SetVariant | store/variantStore.ts:14 | the variant becomes exactly the argument, undefined included |
| VariantStore.LastWriteWins | store/variantStore.ts:14 | after any non-empty run of `setVariant` calls, the variant is the last value written |
| VariantStore.ContainerWrites | components/Container.tsx:23-26 | each container event writes one value: mount writes its variant and unmount writes undefined |
| VariantStore.NestedUnmountClears | components/Container.tsx:23-26 | mounting an outer and an inner container, then unmounting the inner one, leaves no variant rather than restoring the outer one |

## Left out

- Console printing of each message (utils/logger.ts:51-53) and the console override in `setupLogger` (utils/logger.ts:64-68): these are I/O and global patching.
- The wall-clock timestamp is a parameter of `Log`. Arguments reach `Log` already converted to strings, because JavaScript's `String()` on arbitrary values is not modelled.
- JSON encoding and decoding of the persisted logs: storage holds a `StoredLogs` value (absent, malformed, or an encoded list). The model treats a stored value that parses but is not a list of entries as malformed and loads []. The source assigns any parsed value to `inMemoryLogs` (utils/logger.ts:18), so for a non-array value the next `log` throws at `push` (utils/logger.ts:40); that failure is not modelled.
- Logger.LogBuffer.GetLogs: returns the list as a value. The source returns the live array, so a caller's copy changes with later `push` calls until a rotation or `clearLogs` replaces the array. That aliasing is not modelled.
- Logger.JoinArgs: "no leading or trailing separator" holds only when the first and last arguments are non-empty. The contract says instead that the message begins with the first argument and ends with the last.
- day.js parsing and time-zone conversion: the formatter takes the local calendar fields (year, zero-based month, day, hour, minute) as a record. Invalid dates and negative years are not modelled. The English locale and the advanced-format plugin are not part of this model; their token rules are written out from their published behaviour.
- Layout and rendering: padding, radii, opacity for disabled buttons, label font styles, and the JSX of cards, lists, containers and the overlay.
- The `multiple` font-size factor is a `real`, not an IEEE double. The counter is an unbounded `int`, so precision loss beyond 2^53 is not modelled.
- zustand's `persist` / `createJSONStorage` hydration, which is asynchronous, and MMKV's native internals: each store is an in-memory class whose constructor gives its initial value, so `CounterStore` and `FirstRunStore` start as on a first launch; after a relaunch the source rehydrates `count` and `isFirstTime` from their persisted values. Each MMKV instance is a string map, opened over what earlier sessions stored in it. That `removeItem` returns a promise is not modelled; its deletion happens when it is called.
- The launch query and launch-pad services (network I/O), the paginated search list, the countdown, favourites and the haversine distance: none of these is part of this model.

## Findings

| source | as written | input that shows it | evidently intended | confidence | as-written member | corrected member |
|---|---|---|---|---|---|---|
| store/mmkv.ts:27-37 | `spaceXStorage` reads and writes `MMKVStorage`, the instance `exampleStorage` uses, so `MMKVSpaceXStorage` (id "space-x-storage") is created but never used | `spaceXStorage.setItem(k, v)` with `v` non-empty: `exampleStorage.getItem(k)` then returns `v`, and `MMKVSpaceXStorage` is left as it was | `spaceXStorage` over `MMKVSpaceXStorage`, keeping the first-run store apart from the example store | medium, not executed | Mmkv.SharedBacking | Mmkv.IsolatedBacking |
