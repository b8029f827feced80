# bit-log in Dafny

A model of the core of bit-log, a small hierarchical logger for TypeScript, with the properties its code and its tests promise proved about the model.

## The model

- **Levels** (`definitions.dfy`, `legacy_definitions.dfy`):
  - the seven named levels TRACE 0, DEBUG 10, INFO 20, WARN 30, ERROR 40, FATAL 50 and OFF 1000, compared as integers;
  - the lenient `toLogLevel` and `toLogLevelString` of lib/definitions.ts;
  - `isPresent`;
  - the strict, throwing `toLogLevel` of src/definitions.ts.
- **Runtime values** (`values.dfy`): a datatype of primitives, functions and classes (a `Callable` with its source text and constructor chain) and references into a heap. The heap maps ids to arrays, sets, maps and objects. An object keeps the own-property lists of its prototype chain, which `getAllEntries` reads.
- **Formatter** (`tracking.dfy`, `formatter.dfy`, `formatter_facts.dfy`):
  - `CircularTracker` is a class with the insertion-ordered cache and the set of circular references.
  - `formatAny`, `formatArrayLike` and `formatObject` are mutually recursive methods with loops. They are proved equal to functions that thread the tracker state.
  - Descending into a reference tracks it, so the set of untracked references shrinks with every descent. This is the termination measure.
  - Properties of the rendering are proved about those functions: circular references, shared references, pretty layout and function text.
- **String helpers** (`text.dfy`, `ansi.dfy`, `utils.dfy`):
  - `truncateMiddle`, `truncateOrExtend`, `getClassHierarchy`, `formatLogLevel`, `formatISO8601` and `formatPrefix`;
  - the ANSI wrappers of `Ansi`.
  - src/utils.ts and src/ansi.ts behave like their lib counterparts for string arguments. The model holds the lib versions, plus the src level labels and prefix, which differ.
- **Appenders** (`appender_base.dfy`, `file_appender.dfy`):
  - `willHandle` and `formatPrefix` of the abstract base appender. The `willHandle` of src/appender/AbstractBaseAppender.ts is the same expression.
  - Of the file appender: `calcFullFilePath`, with the file system as oracles; `getTimestamp`; the written line; and the `handle` gate with its write queue, a class whose queue keeps the writes in call order.
- **Logger** (`logger.dfy`): the `Logger` class.
  - Its fields are the name, the parent, the level and the insertion-ordered appender record.
  - Its methods are `shouldLog`, `addAppender`, `removeAppender`, `logEvent`, the six severity methods and `emit`.
  - `emit` walks up the parent chain and returns the `handle` calls it makes, in order.
- **Registry** (`records.dfy`, `registry.dfy`, `legacy_registry.dfy`):
  - The module state of lib/index.ts is a class with the logger and appender registries. It holds `useLog`, `configureAppender` and `configureLogging`: the appender, root and logger sections, their warnings and their errors. A second constructor runs the module's start-up, which registers 'bit.log' and puts the console appender on the root at INFO; the console appender itself is a `Callable`.
  - The module state of src/index.ts is a second class with the separate `ROOT` logger. It holds `useLogger`, `asString` and the appender section of `configureLogging`.

Time, the host's time zone, the file system and `JSON.stringify` of objects are parameters of the operations that use them.

## Model

| member | source | states |
|---|---|---|
| Ansi.FormatEnd | lib/ansi.ts:8-13 | the result always ends with the reset code ESC[m and starts with the text; a text already ending with it is returned unchanged, any other text gets the reset code appended |
| Ansi.FormatCodeDecodes | lib/ansi.ts:4-6 | a selector is ESC '[', then decimal digits that read back as the code, then 'm' |
| Ansi.FormatCode | lib/ansi.ts:4-6 | a selector is ESC '[' and 'm' with neither 'm' nor ESC in between, so it ends at its first 'm' |
| Ansi.FormatEndIdempotent | lib/ansi.ts:8-13 | applying `formatEnd` twice gives the same text as applying it once |
| Ansi.SelectorTail | lib/ansi.ts:4-6 | every selector is at least four characters long and ends with a digit followed by 'm' |
| Ansi.SelectorThenText | lib/ansi.ts:4-13 | a selector followed by a text ends with the reset code exactly when the text does, so the selector never decides whether a reset is appended |
| Ansi.PaintShape | lib/ansi.ts:15-81 | each of the seventeen wrappers gives its selector, the text, and the reset code exactly when the text does not already end with it |
| Ansi.Paint | lib/ansi.ts:15-81 | each wrapper's text starts with its selector and the text, ends with the reset code, and adds at most the reset code |
| Ansi.PaintNested | lib/ansi.ts:79-81 | wrapping an already wrapped text adds only the outer selector in front: both selectors, one reset code |
| Ansi.RedAndBoldSelectors | lib/ansi.ts:31-81 | the selector of `red` is ESC[91m and the selector of `bold` is ESC[1m |
| Ansi.RedTest | lib/ansi.ts:31-33 | `red('test')` is ESC[91m, 'test', ESC[m |
| Ansi.BoldRedTest | src/__tests__/ansi.spec.ts:15-17 | `bold(red('test'))` is ESC[1m ESC[91m test ESC[m, with one reset only |
| Definitions.LookupName | lib/definitions.ts:22-41 | a name has a value exactly when it is one of the seven level names, and the value is the one the table pairs with it |
| Definitions.LevelName | lib/definitions.ts:22-30 | a number has a name exactly when it is one of the seven level values, and the name is the one the table pairs with it |
| Definitions.ToLogLevel | lib/definitions.ts:36-44 | undefined and null give undefined; a number is returned as it is; a name gives its value when it is one of the seven names and undefined otherwise |
| Definitions.LevelsIncrease | lib/definitions.ts:22-30 | the level values increase strictly in declaration order, none exceeds OFF (1000), and TRACE is 0 |
| Definitions.NamesDistinct | lib/definitions.ts:22-30 | no two levels share a name |
| Definitions.ScanDownFinds | lib/definitions.ts:51-57 | the reverse scan over the first k entries gives TRACE below 0 and otherwise the name of the last entry whose value is at most the number |
| Definitions.ToLogLevelStringHighestAtMost | lib/definitions.ts:46-58 | `toLogLevelString(n)` is TRACE for a negative n and otherwise the name of the highest level whose value is at most n |
| Definitions.ToLogLevelString | lib/definitions.ts:46-58 | a name is returned as it is; a number always gives one of the level names (which one: Definitions.ToLogLevelStringHighestAtMost) |
| Definitions.NameRoundTrip | lib/definitions.ts:36-58 | every level name converts to a number, and that number converts back to the same name |
| Definitions.LevelExamples | lib/__tests__/definitions.spec.ts:26-42 | the conversions the tests check: 12, 30, 'ERROR', 'foobar', undefined; 'ERROR', 10, -1, 9 and 999 to names |
| Definitions.PresentExamples | lib/__tests__/definitions.spec.ts:19-24 | undefined and null are absent; the empty string, 0 and false are present |
| Definitions.IsPresent | lib/definitions.ts:15-17 | every string, number, bigint and boolean is present, the falsy '', 0 and false included (Definitions.PresentExamples: undefined and null are not) |
| Definitions.IsAppenderConfig | lib/definitions.ts:216-218 | only an object can be an appender configuration, since reading `Class` of anything else gives undefined |
| LegacyDefinitions.ReverseKey | src/definitions.ts:25-33 | a text found among the enum's reverse-mapping keys is the decimal text of one of the seven values, and the result is that value's name |
| LegacyDefinitions.TwentyIsReverseKey | src/definitions.ts:25-49 | '20' is no level name but is a key of the enum object, the reverse-mapping key of INFO |
| LegacyDefinitions.AsWrittenTurnsTextIntoName | src/definitions.ts:48-50 | as written, `toLogLevel('20')` passes the `in` test and returns the name 'INFO' instead of a level |
| LegacyDefinitions.ToLogLevelAsWritten | src/definitions.ts:44-58 | as written: what it lets through is a level or, for a reverse-mapping key, a level name; it fails only for a name that is no level name or a number that is no level |
| LegacyDefinitions.ToLogLevel | src/definitions.ts:44-58 | corrected `in` test (see Findings): undefined stays undefined; a name succeeds exactly when it is one of the seven names and gives its value; a number succeeds exactly when it is one of the seven values and is returned as it is; every failure carries the message `not a valid LogLevel: '<value>'` |
| LegacyDefinitions.StrictAgreesWithLenient | src/definitions.ts:44-58 | wherever the strict conversion succeeds it gives what the lib conversion of lib/definitions.ts:36-44 gives |
| LegacyDefinitions.StrictExamples | src/__tests__/definitions.spec.ts:25-29 | undefined, 'ERROR', DEBUG and 30 convert to undefined, 40, 10 and WARN |
| LegacyDefinitions.StrictFailureExamples | src/__tests__/definitions.spec.ts:30-45 | 'foobar' and 12 fail with `not a valid LogLevel: 'foobar'` and `... '12'`; the decimal text '20' fails as well |
| Tracking.Position | lib/utils.ts:38-40 | the position is 0 exactly when the object is not tracked, and otherwise the 1-based index of its first (and only) occurrence in insertion order |
| Tracking.GrowsTransitive | lib/utils.ts:8-22 | a tracker that grew twice grew once: the cache of the earlier state stays a prefix and its circular marks stay |
| Tracking.GrowsKeepsPositions | lib/utils.ts:17-40 | an object tracked in an earlier state keeps its position in every later state, so a `refN` number never changes during a traversal |
| Tracking.AddTrackedPositions | lib/utils.ts:17-22 | adding a new object puts it at position size+1 and leaves the position of every object tracked before unchanged |
| Tracking.MarkCircularIdempotent | lib/utils.ts:56-60 | marking an object circular twice is marking it once; it marks that object only and leaves the cache alone |
| Tracking.CircularTracker.constructor | lib/utils.ts:8-10 | a new tracker has an empty cache and no circular marks |
| Tracking.CircularTracker.Add | lib/utils.ts:17-22 | an object tracked already gives the error 'object must not be added twice' and changes nothing; any other object is appended to the cache; the circular marks stay as they were |
| Tracking.CircularTracker.Has | lib/utils.ts:29-31 | true exactly when `getIndex` reports a positive 1-based position for the object, and then the cache holds the object at that position |
| Tracking.CircularTracker.IndexOf | lib/utils.ts:38-40 | 0 exactly when the object is not in the cache, otherwise its 1-based insertion position |
| Tracking.CircularTracker.IsCircular | lib/utils.ts:47-49 | true exactly when `setAsCircular` of the object would leave the tracker as it is |
| Tracking.CircularTracker.SetAsCircular | lib/utils.ts:56-60 | the object joins the circular marks (a mark already there stays one mark) and the cache is unchanged |
| Values.LevelEntries | lib/utils.ts:307-324 | one entry per own property name, in order, each holding the name and the value its descriptor yields: the data value, the getter's result, 'Property Descriptor has no get method!!!' for an accessor without getter, 'Property inaccessible' when there is no descriptor or reading throws |
| Values.ChainEntriesIn | lib/utils.ts:299-328 | every value collected along a prototype chain is a value of the same heap, so formatting it never leaves the heap |
| Values.AllEntriesIn | lib/utils.ts:299-328 | the entries `getAllEntries` reports for a Map or an object of the heap hold values of the heap |
| Values.OwnEntriesFirst | lib/utils.ts:299-328 | the own entries of an object are the first entries `getAllEntries` reports for it, before those of its prototypes |
| Values.OwnEntries | lib/index.ts:74 | only an object has own entries |
| Values.Get | lib/definitions.ts:217 | a property read other than undefined is a read of an object's property |
| Values.GetFindsFirst | lib/definitions.ts:217 | a defined property read is the first entry of that name along the prototype chain, so an own property shadows a prototype's |
| Formatter.UntrackedShrinks | lib/utils.ts:142-155 | a tracker that only grows never has more untracked objects than before, so the formatting of later elements cannot restart on an object already entered |
| Formatter.UntrackedAfterAdd | lib/utils.ts:142-143 | entering a container (the `ct.add` at the start of `formatArrayLike` and `formatObject`) strictly shrinks the set of untracked heap objects: this is why a cyclic value renders finitely |
| Formatter.SoundAfterAdd | lib/utils.ts:17-22 | adding an untracked heap object keeps the tracker sound: heap objects only, each once, circular marks only on tracked objects |
| Formatter.FmtAny | lib/utils.ts:74-133 | formatting any value only adds to the tracker; a non-container leaves it unchanged; a container is the first object it appends; a sound tracker stays sound |
| Formatter.FmtObject | lib/utils.ts:170-210 | formatting an object, Map or Set appends that container to the cache before anything it contains, the tracker only grows and stays sound |
| Formatter.FmtArrayLike | lib/utils.ts:135-168 | formatting an array or Set appends it to the cache before its elements, the tracker only grows and stays sound |
| Formatter.ElementStep | lib/utils.ts:145-154 | one element (a tracked object becomes a circular reference, anything else is formatted one level deeper) only adds to the tracker and keeps it sound |
| Formatter.FmtElements | lib/utils.ts:144-155 | the loop over the elements yields one text per element, only adds to the tracker and keeps it sound |
| Formatter.EntryStep | lib/utils.ts:183-196 | one entry (a tracked object value becomes `key: [Circular refN]`, any other value is formatted one level deeper) only adds to the tracker and keeps it sound |
| Formatter.FmtEntries | lib/utils.ts:182-197 | the loop over the entries yields one text per entry, only adds to the tracker and keeps it sound |
| Formatter.ElementsCons | lib/utils.ts:144-155 | formatting a first element and then the rest is formatting the whole list: the first text in front, the state the rest leaves |
| Formatter.ElementsSnoc | lib/utils.ts:144-155 | formatting one more element continues from the state left by the elements before it and appends its text |
| Formatter.EntriesCons | lib/utils.ts:182-197 | formatting a first entry and then the rest is formatting all entries |
| Formatter.EntriesSnoc | lib/utils.ts:182-197 | formatting one more entry continues from the state left by the entries before it and appends its text |
| Formatter.GetAllEntries | lib/utils.ts:299-328 | the nested loops return a Map's entries as they are, and for any other object the entries of every prototype level in turn, the object's own first, each level in property-name order |
| Formatter.FormatAny | lib/utils.ts:74-133 | with a mutable tracker, the method returns exactly the text `FmtAny` specifies and leaves the tracker in exactly the state it specifies |
| Formatter.FormatObject | lib/utils.ts:170-210 | returns the text and leaves the tracker state that `FmtObject` specifies |
| Formatter.FormatArrayLike | lib/utils.ts:135-168 | returns the text and leaves the tracker state that `FmtArrayLike` specifies |
| Formatter.FormatItems | lib/utils.ts:143-155 | the loop over the elements produces the texts and tracker state of `FmtElements` |
| Formatter.FormatItemsStep | lib/utils.ts:145-154 | after element i the texts and tracker state are those `FmtElements` gives for the first i+1 elements |
| Formatter.FormatEntries | lib/utils.ts:181-197 | the loop over the entries produces the texts and tracker state of `FmtEntries` |
| Formatter.FormatEntriesStep | lib/utils.ts:183-196 | after entry i the texts and tracker state are those `FmtEntries` gives for the first i+1 entries |
| Formatter.FormatElement | lib/utils.ts:145-154 | one element's text and tracker update are those of `ElementStep` |
| Formatter.FormatEntry | lib/utils.ts:183-196 | one entry's text and tracker update are those of `EntryStep` |
| FormatterFacts.ShownLineIsCutFirstLine | lib/utils.ts:122-128 | the part of a function's source that is shown is its first line cut at 100 characters, and it is shorter than the source exactly when there is a line break or the first line is over 100 characters |
| FormatterFacts.FunctionTextShape | lib/utils.ts:121-128 | a function that is not a class renders as `[Function <shown part>]`, with '...' before the bracket exactly when the source goes on beyond the shown part |
| Formatter.FunctionText | lib/utils.ts:121-128 | the text is in brackets; uncoloured it starts with '[Function ' and has at most 114 characters, the first source line being cut at 100 |
| Formatter.FormatValue | lib/utils.ts:74-84 | at top level undefined, null, booleans, numbers, bigints and strings are written bare: unquoted and uncoloured |
| FormatterFacts.IndentAll | lib/utils.ts:160-162 | one indented text per text, each the indent followed by the text |
| FormatterFacts.JoinIndented | lib/utils.ts:161-162 | the indent followed by the texts joined with a separator plus indent is the indented texts joined with the separator |
| FormatterFacts.PrettyLayout | lib/utils.ts:160-163 | the pretty layout puts the opening bracket, then every element on its own line indented by inner+1 levels, separated by commas, then the closing bracket on a line indented by inner levels |
| FormatterFacts.ObjectDispatch | lib/utils.ts:108-113 | `formatAny` hands an object or a Map to `formatObject`: the text is the closing layout of the entries formatted after the object was tracked |
| FormatterFacts.ObjectReference | lib/utils.ts:170-209 | an object or Map not yet tracked is tracked at the next cache position before its entries; its text carries the mark `<refN>` exactly when an entry below it met it again |
| FormatterFacts.CircularEntryStep | lib/utils.ts:182-189 | an entry whose value is already tracked, in a Map as in an object, is written `key: [Circular refN]` with N its 1-based cache position, and marks that value circular |
| FormatterFacts.OnePropertyObject | lib/utils.ts:180-209 | a one-property object renders as `{ key: text }` behind its mark, `text` being its entry's rendering |
| FormatterFacts.BackReferenceObject | lib/utils.ts:182-209 | a one-property object whose value is tracked already renders as `{ key: [Circular refN] }` and marks that value circular |
| FormatterFacts.NestedObject | lib/utils.ts:190-209 | a one-property object whose value is an untracked object renders as `{ key: text }` with `text` that object's rendering one level deeper, and no mark of its own |
| FormatterFacts.RingOfFour | lib/utils.ts:170-209 | for any four objects each holding the next and the last holding the first, the first renders with the mark `<ref1>`, the innermost entry reads `[Circular ref1]`, and the three inner objects carry no mark |
| FormatterFacts.ObjectCycleExample | lib/__tests__/utils.spec.ts:341-346 | the object cycle of the test renders as `<ref1>{ prop: { child: { otherProp: { parent: [Circular ref1] } } } }` |
| FormatterFacts.IndentWidth | lib/utils.ts:161-162 | the indent of depth d is 2·d spaces |
| FormatterFacts.CircularStep | lib/utils.ts:145-151 | an element that is tracked already renders as `[Circular refN]`, N its tracker position, and becomes marked circular |
| FormatterFacts.PrimitiveStep | lib/utils.ts:153 | an element that is neither an object nor a function renders as its primitive text and leaves the tracker alone |
| FormatterFacts.ArrayReference | lib/utils.ts:135-168 | an untracked array is tracked first, its elements are formatted from that state, and the text carries `<refN>` exactly when it was marked circular meanwhile |
| FormatterFacts.CyclicLast | lib/utils.ts:145-151 | in the self-containing array, the element that refers back to the array renders as `[Circular ref1]` and marks it |
| FormatterFacts.CyclicElements | lib/utils.ts:143-155 | the elements 1, 'Test', true and the self-reference render as `1`, `'Test'`, `true` and `[Circular ref1]` |
| FormatterFacts.CyclicArrayExample | lib/__tests__/utils.spec.ts:356-360 | the array `[1, 'Test', true, <itself>]` renders as `<ref1>[ 1, 'Test', true, [Circular ref1] ]` |
| FormatterFacts.SharedReferenceShownAsCircular | lib/utils.ts:145-151 | an array holding two references to one empty array renders as `[ [  ], [Circular ref2] ]`: the tracker never forgets, so a shared object that is not a cycle is shown as circular too |
| FormatterFacts.PrimitiveRendering | lib/utils.ts:81-107 | at the top level a string is rendered bare, below it quoted; null below the top level is `null`; a symbol is `Symbol(<description>)` |
| Utils.TruncateMiddle | lib/utils.ts:375-386 | a string that fits is returned unchanged; a longer one becomes exactly `length` characters when the replacement fits: its first ceil and last floor of half the remaining room, around the replacement, the front part at most one longer than the back |
| Utils.TruncateOrExtend | lib/utils.ts:397-399 | the result has exactly the requested length (3 or more); a string that fits is padded with spaces at the end; a longer one is the middle truncation |
| Utils.TruncateExamples | lib/__tests__/utils.spec.ts:99-113 | 'to short' and 'exactly 10' stay as they are at 10; 'longer then' becomes 'long...hen'; 'to short' is extended to 'to short  ' |
| Utils.Chain | lib/utils.ts:343-346 | the walk up the constructor chain starts with the class's own name |
| Utils.GetClassHierarchy | lib/utils.ts:335-349 | the while loop over the constructor chain returns what `ClassHierarchy` specifies: 'no class' for anything but a class, otherwise '[class ' and the chain's names joined by ' extends ' and ']' |
| Utils.HierarchyOfSubclass | lib/utils.ts:340-348 | a class whose prototype chain has a base class lists its own name, ' extends ', then the base's chain |
| Utils.IsClass | lib/utils.ts:357-365 | a class's source has 'class' followed by a space, so a function whose source starts 'classy' is none |
| Utils.ClassHierarchy | lib/utils.ts:335-350 | the text starts with '[class ' exactly when the value is a class, and then ends with ']'; anything else gives 'no class' |
| Utils.HierarchyExample | lib/__tests__/utils.spec.ts:139-153 | ClassB extending ClassA gives '[class ClassB extends ClassA]' |
| Utils.NoClassExamples | lib/__tests__/utils.spec.ts:155-163 | a plain function, an arrow function and a number all give 'no class' |
| Utils.FormatLogLevel | lib/utils.ts:246-266 | coloured, there is always a text (the painted name of the six severities, '' otherwise); plain, it is the level's name, undefined for a value without a name |
| Utils.ColoredLabelWrapsPlain | lib/utils.ts:246-266 | for each of the six severities the coloured label is the severity's selector, the plain name and the reset code |
| Utils.PaintName | lib/ansi.ts:4-81 | wrapping a level name (which never ends with the reset code) gives selector, name, reset code |
| Utils.LegacyLabelAgrees | src/utils.ts:37-53 | a literal escape sequence of src/utils.ts equals the lib colour wrapper of that level when it has the same selector digits and name |
| Utils.LegacyLabelsAgreeTraceDebug | src/utils.ts:39-48 | the TRACE and DEBUG literals are the lib coloured labels |
| Utils.LegacyLabelsAgreeInfoWarn | src/utils.ts:45-50 | the INFO and WARN literals are the lib coloured labels |
| Utils.LegacyLabelsAgreeErrorFatal | src/utils.ts:41-44 | the ERROR and FATAL literals are the lib coloured labels |
| Utils.LegacyLabelsAgree | src/utils.ts:37-53 | for every level the src label equals the lib coloured label, both '' for OFF and for unnamed values |
| Utils.LegacyFormatLogLevel | src/utils.ts:37-53 | the label is empty exactly for OFF and unnamed levels; any other label starts with ESC, ends with the reset code and fits the 13 places the prefix pads to |
| Utils.ZeroPadReadsBack | lib/utils.ts:223-228 | a number below 100 padded to two places is two digits that read back as the number |
| Utils.OffsetSuffixReadsBack | lib/utils.ts:230-234 | the corrected zone suffix is six characters: '-' west of UTC and '+' otherwise, two digits, ':', two digits, and hours·60+minutes is the size of the offset |
| Utils.SuffixFields | lib/utils.ts:234 | sign, hours, ':' and minutes sit at positions 0, 1-2, 3 and 4-5 of the suffix |
| Utils.AsWrittenAgreesOffWholeHoursEast | lib/utils.ts:230-234 | the written suffix agrees with the corrected one west of UTC and on whole-hour offsets east of it |
| Utils.AsWrittenMisstatesHalfHourEast | lib/utils.ts:232 | at UTC+05:30 (offset -330) the written code prints '+06:30' where '+05:30' is meant |
| Utils.FormatISO8601 | lib/utils.ts:221-237 | corrected zone suffix (see Findings): the timestamp ends with the zone suffix of its offset, read back by Utils.OffsetSuffixReadsBack |
| Utils.FormatISO8601AsWritten | lib/utils.ts:221-237 | as written: the timestamp ends with the suffix whose hours are rounded down before the sign is dropped (Utils.AsWrittenMisstatesHalfHourEast) |
| Utils.ZeroPadTwo | lib/utils.ts:223-227 | a number below 100 whose decimal digits are a and b pads to the two characters a, b |
| Utils.IsoTextParts | lib/utils.ts:236 | the timestamp is year, '-', month, '-', day, 'T', hours, ':', minutes, ':', seconds, '.', milliseconds and the zone, in that order |
| Utils.YearAndMillisExample | lib/utils.ts:222-228 | the year 2024 prints as '2024' and 789 milliseconds as '789' |
| Utils.ZoneExamples | lib/__tests__/utils.spec.ts:79-97 | offsets of two hours east and five hours west print as '+02:00' and '-05:00' |
| Utils.IsoExampleEast | lib/__tests__/utils.spec.ts:79-87 | 1 July 2024, 14:34:56.789 two hours east of UTC prints as 2024-07-01T14:34:56.789+02:00 |
| Utils.IsoExampleWest | lib/__tests__/utils.spec.ts:89-97 | 23 December 2024, 07:34:56.789 five hours west of UTC prints as 2024-12-23T07:34:56.789-05:00 |
| Utils.PrefixLine | lib/utils.ts:286 | the prefix line reads back piece by piece: stamp and a space, the level tag, ' [', the name field, ']:' |
| Utils.PaddedPrefixLine | lib/utils.ts:282-286 | with the level text padded on the left, the line has the text right-aligned in a field of the given width (wider when the text is longer) |
| Utils.FormatPrefix | lib/utils.ts:279-287 | corrected zone suffix (see Findings): there is a prefix exactly when the level has a label (a plain label of an unnamed level is undefined and padding it throws); it is the timestamp, the label right-aligned in 13 (coloured) or 5 (plain) places, and the name truncated or extended to exactly 20 in brackets, then ':' |
| Utils.LegacyPrefixIsColoredPrefix | src/utils.ts:64-87 | the src prefix at a given moment is the coloured lib prefix at that moment |
| Utils.LegacyFormatPrefix | src/utils.ts:64-87 | corrected zone suffix (see Findings): the src prefix has a fixed width, 38 characters beyond the timestamp: it starts with the timestamp and a space and ends with ']:' |
| AppenderBase.WillHandleThreshold | lib/appender/AbstractBaseAppender.ts:33-35 | an appender with a level takes events at exactly that level and refuses those one below it; an appender without a level takes every level |
| AppenderBase.WillHandleMonotone | lib/appender/AbstractBaseAppender.ts:33-35 | an appender that takes a level takes every higher level |
| AppenderBase.CallSiteText | lib/appender/AbstractBaseAppender.ts:18-24 | empty exactly when the event has no call site; otherwise ' (' + path + ':' first, ')' last, the line padded to at least 4 and the column to at least 2 places |
| AppenderBase.PrefixHead | lib/appender/AbstractBaseAppender.ts:26 | the appender's prefix without call site is the utilities' prefix line without its final colon |
| AppenderBase.FormatPrefix | lib/appender/AbstractBaseAppender.ts:12-27 | corrected zone suffix (see Findings): there is a prefix exactly when the level has a label; it is the timestamp text, the label padded to 13 (coloured) or 5, the name in its 20-character field in brackets, then the call-site part and ':' |
| AppenderBase.PrefixWithoutCallSite | lib/appender/AbstractBaseAppender.ts:12-27 | without a call site the prefix has the label right-aligned in its field of 13 or 5, between the timestamp and the bracketed name |
| AppenderBase.DefaultPrefixIsUtilsPrefix | lib/appender/AbstractBaseAppender.ts:12-29 | with the default timestamp formatter and no call site, the appender's prefix is `formatPrefix` of lib/utils.ts |
| AppenderBase.PaddedInfo | lib/appender/AbstractBaseAppender.ts:13-14 | the plain INFO label is 'INFO' and it pads to ' INFO' |
| AppenderBase.NameField | lib/appender/AbstractBaseAppender.ts:15 | 'foo.bar' fills the 20-character name field with 13 trailing spaces |
| AppenderBase.CustomStampExample | lib/appender/__tests__/ConsoleAppender.spec.ts:200-216 | with the timestamp formatter replaced by one giving '08.05.2024', an INFO event of foo.bar has the prefix '08.05.2024  INFO [foo.bar             ]:' |
| FileAppending.JoinPath | lib/appender/FileAppender.ts:54 | the joined path starts with the directory and ends with the file name |
| FileAppending.FileNameParts | lib/appender/FileAppender.ts:48-53 | with base name or timestamp given, the file name is not empty; it starts with the base name and ends with the timestamp when they are given, joined by one '-' when both are |
| FileAppending.FileName | lib/appender/FileAppender.ts:48-53 | the name is as long as its two parts, plus one for the '-' that joins them exactly when both are given |
| FileAppending.EndsWithExtension | lib/appender/FileAppender.ts:54 | a path ending in `<name>.<extension>` ends in `.<extension>` |
| FileAppending.CalcFullFilePath | lib/appender/FileAppender.ts:18-71 | the checks in order, each failure with its console message (for an inaccessible filePath, both arguments of `console.error` joined by a space): no filePath, inaccessible filePath, missing baseName, empty baseName and timestamp, empty extension; otherwise the path is the directory joined with `<name>.<extension>`, accepted exactly when it does not exist or exists as an accessible non-directory |
| FileAppending.ExistingTargetRefused | lib/appender/FileAppender.ts:55-65 | an existing target that cannot be accessed is refused with "path '…' can not be accessed.", an accessible directory with "path '…' is a directory." |
| FileAppending.GetTimestampReadsBack | lib/appender/FileAppender.ts:131-135 | the file-name date is the year, '-', two digits spelling the 1-based month, '-', two digits spelling the day |
| FileAppending.GetTimestamp | lib/appender/FileAppender.ts:131-135 | the date text has a '-' right after the year and at least six characters beyond the year |
| FileAppending.TimestampSlices | lib/appender/FileAppender.ts:132-134 | the date's parts sit at fixed positions after the year |
| FileAppending.GetTimestampExample | lib/appender/__tests__/FileAppender.spec.ts:84-93 | 1 May 2024 gives '2024-05-01', the name of the log file the test expects |
| FileAppending.FormatParts | lib/appender/FileAppender.ts:161-163 | one formatted text per payload value |
| FileAppending.WriteLine | lib/appender/FileAppender.ts:156-165 | corrected zone suffix (see Findings): a line exists exactly when the level has a label and the payload is a function or an argument list; it is the prefix, then the function's result or the formatted values, separated by single spaces, then a newline |
| FileAppending.WriteOne | lib/appender/FileAppender.ts:150-169 | a write appends exactly when the path is accepted, the line can be built and the append succeeds; it appends that line to that path |
| FileAppending.Appends | lib/appender/FileAppender.ts:141-145 | a run of write attempts appends at most one line per attempt |
| FileAppending.AppendsConcat | lib/appender/FileAppender.ts:141-145 | the appends of two runs one after the other are the appends of the first followed by those of the second |
| FileAppending.Attempts | lib/appender/FileAppender.ts:141 | one write attempt per queued event |
| FileAppending.Writes | lib/appender/FileAppender.ts:141-147 | the queue appends at most one line per queued event |
| FileAppending.EventsConcat | lib/appender/FileAppender.ts:141 | two queues of events of the heap joined are still events of the heap |
| FileAppending.AttemptsConcat | lib/appender/FileAppender.ts:141-145 | the attempts for two queues joined are the attempts of each, in order |
| FileAppending.WritesAppend | lib/appender/FileAppender.ts:141-145 | the appends for two queues joined are those of the first queue followed by those of the second |
| FileAppending.WritesOne | lib/appender/FileAppender.ts:141 | a queue of one event appends exactly what that event's write appends |
| FileAppending.WriteFailureRecovers | lib/appender/FileAppender.ts:143-145 | a failed write adds nothing and does not stop the queue: the appends of the events around it are unchanged |
| FileAppending.FileAppender.constructor | lib/appender/FileAppender.ts:111-124 | base name '', plain, extension 'log', `bit.log` in the temporary directory, not pretty, an empty queue, and the given level |
| FileAppending.FileAppender.Handle | lib/appender/FileAppender.ts:137-148 | an event the appender does not take is dropped; any other is queued behind the events before it; the settings are unchanged |
| FileAppending.HandleAppendsInOrder | lib/appender/__tests__/FileAppender.spec.ts:289-311 | after a `handle` call the appends are those before it, then the new event's line if its write succeeds: lines appear in call order |
| FileAppending.AsWrittenLazyPayloadIsLost | lib/logger.ts:146-159 | as the logger builds it, a lazily computed message is a bare string, and the file appender cannot write any such event |
| FileAppending.LoggedLazyPayloadIsWritten | lib/appender/FileAppender.ts:156-165 | with the corrected payload, a lazily computed message is written, coloured or not, exactly as the event with the function itself as payload, and a line is written exactly when the level has a label |
| Logging.Accepting | lib/logger.ts:148-155 | at most one call per appender, each a call with the emitted event of an appender that takes it |
| Logging.AcceptingExactly | lib/logger.ts:148-155 | a call is made exactly for the appenders of the record that take the event, under their names |
| Logging.AcceptingEmpty | lib/logger.ts:148-155 | no appender is called exactly when none of them takes the event |
| Logging.PayloadsDifferExactlyOnFunction | lib/logger.ts:40-45 | the corrected payload is always an argument list; the as-written payload is an argument list, and equals the corrected one, exactly when the first argument is not a function |
| Logging.PayloadsAgreeWithoutFunction | lib/logger.ts:40-45 | when the first argument is not a function, the written and the corrected payload are both the argument list |
| Logging.Logger.constructor | lib/logger.ts:29-33 | name and parent as given; the level is the given one, else the parent's level at this moment, else ERROR; no appenders |
| Logging.Logger.ShouldLog | lib/logger.ts:63-65 | true exactly when an appender whose level is the logger's level would take the event: logger and appenders apply the same at-or-above test |
| Logging.Logger.AddAppender | lib/logger.ts:77-83 | the appender is stored exactly when overwriting or when the name is new, replacing an existing entry in place or adding it last; otherwise nothing changes; the names stay distinct and the level is untouched |
| Logging.Logger.RemoveAppender | lib/logger.ts:91-97 | true exactly when the name was registered; the entry of that name is removed and the others keep their order |
| Logging.Logger.Emit | lib/logger.ts:146-160 | the loop calls every local appender that takes the event; when none does, the parent's result and calls are returned; without a parent, false and no calls |
| Logging.Logger.DispatchHandledIff | lib/logger.ts:146-160 | the result is true exactly when some call is made, exactly when some logger on the way up (this one included) has an appender that takes the event; every call carries that event to an appender that takes it |
| Logging.Logger.LogEvent | lib/logger.ts:35-54 | corrected payload (see Findings): below the logger's level nothing happens and a function argument is not called; otherwise a function argument is called once, and the event with this logger's name, the payload and the time is emitted |
| Logging.Logger.Debug | lib/logger.ts:109-111 | `logEvent` at DEBUG |
| Logging.Logger.Error | lib/logger.ts:117-119 | `logEvent` at ERROR |
| Logging.Logger.Fatal | lib/logger.ts:125-127 | `logEvent` at FATAL |
| Logging.Logger.Info | lib/logger.ts:133-135 | `logEvent` at INFO |
| Logging.Logger.Trace | lib/logger.ts:166-168 | `logEvent` at TRACE |
| Logging.Logger.Warn | lib/logger.ts:174-176 | `logEvent` at WARN |
| Registry.ParentName | lib/index.ts:132 | the parent name is the text before the last '.', or '' when there is none; it is shorter than any non-empty name |
| Registry.Canonical | lib/index.ts:129-130 | 'root' stands for the root logger '', every other name for itself; no key is 'root' |
| Registry.ParentKey | lib/index.ts:132-133 | the key of a logger's parent is shorter than the key and never 'root', so creating the parents ends |
| Registry.OnPathShorter | lib/index.ts:132-134 | every logger created on the way up from a key has a name no longer than the key |
| Registry.NotConfiguredWarnings | lib/index.ts:33-42 | at most one warning per listed name, each the warning for a listed name that is not configured |
| Registry.AllConfiguredNoWarnings | lib/index.ts:33-42 | a list whose every name is configured gives no warning |
| Registry.ConfigLevel | lib/index.ts:71-73 | a number is the level itself, a text the value of the level name (none for other texts), anything else no level |
| Registry.CopyPropsKeys | lib/index.ts:74-79 | the properties set on an instance have distinct names, and a name is set exactly when some present entry of that name other than 'class' and 'level' is copied |
| Registry.CopyProps | lib/index.ts:74-79 | every property set on the instance is an entry of the configuration that is copied: neither 'class' nor 'level', and present |
| Registry.AddListedFacts | lib/index.ts:33-42 | the first loop keeps every appender a logger has and adds each listed configured name it lacks with the configured instance; names stay distinct |
| Registry.AddListed | lib/index.ts:33-42 | every appender afterwards was there before or is the configured instance of a listed name |
| Registry.Unlisted | lib/index.ts:43-48 | the keys the second loop deletes are exactly the keys that are not listed |
| Registry.ReconciledFacts | lib/index.ts:30-55 | after `configureAppender` the names are exactly the listed ones that were there or are configured, an old name keeps its instance, a new one has the configured instance, and without a list the record is empty |
| Registry.Reconciled | lib/index.ts:30-55 | every appender left was there before or is the configured instance of a listed name |
| Registry.ReplaceIn | lib/index.ts:82-87 | replacing an appender keeps the names of a logger's record, and a logger without that name is untouched |
| Registry.ReplaceInFacts | lib/index.ts:82-87 | a logger that held the name holds the new instance under it, every other name keeps its instance, names stay distinct |
| Registry.EntryError | lib/index.ts:67-95 | a configuration is accepted exactly when it is an appender configuration whose `Class` constructs; not being an appender configuration and a throwing constructor are told apart |
| Registry.ErrorMessage | lib/index.ts:90-95 | the error message is 'illegal appender config ' and the configuration as `formatAny` renders it, then ', error: ' and the thrown error when the constructor threw |
| Registry.Latest | lib/index.ts:67 | a name has a configuration exactly when some entry has that name, and it is the value of such an entry |
| Registry.Verdicts | lib/index.ts:67-96 | one verdict per entry of the appender section |
| Registry.VerdictAt | lib/index.ts:67-96 | the verdict on each entry is the verdict on its configuration |
| Registry.FirstIllegalFromIsFirst | lib/index.ts:67-96 | the search from an entry finds nothing exactly when every later entry is legal, and otherwise the first illegal one |
| Registry.FirstIllegalAt | lib/index.ts:67-96 | an illegal entry with only legal ones before it is where the section stops |
| Registry.FirstIllegalIsFirst | lib/index.ts:67-96 | the section stops at no entry exactly when every entry is legal, otherwise at an illegal entry with only legal ones before it |
| Registry.LatestSnoc | lib/index.ts:67 | one more entry of a name becomes that name's configuration |
| Registry.LastIndex | lib/index.ts:67 | the last position of a name among the first i entries, none when the name does not occur there |
| Registry.LatestIndex | lib/index.ts:67-89 | the configuration of a name among the first i entries is the one at its last position |
| Registry.PlanKeys | lib/index.ts:67-89 | while every entry is legal, the names installed are exactly the names of the entries so far |
| Registry.PlanLatest | lib/index.ts:67-89 | while every entry is legal, each name is installed with the blueprint of its last entry so far |
| Registry.BlueprintsLatest | lib/index.ts:67-89 | in a legal section each name gets the blueprint of its last entry, and no other name gets one |
| Registry.ReplaceInKept | lib/index.ts:82-87 | replacing one name changes no logger's names, and a logger without the name not at all |
| Registry.KeptMore | lib/index.ts:82-87 | what replacing some names leaves, replacing more names leaves as well |
| Registry.KeptStep | lib/index.ts:82-87 | replacing some names and then one more leaves what replacing them all leaves |
| Registry.ReplaceAll | lib/index.ts:82-87 | replacing a name in every logger keeps every logger's names and leaves loggers without it as they were |
| Registry.ReplaceAllPointwise | lib/index.ts:82-87 | records that were each replaced one logger at a time are the records replaced everywhere |
| Registry.PropagatedStep | lib/index.ts:80-89 | replacing a configured name everywhere and registering the new instance leaves every holder of that name, and of every name propagated before, holding the registry's instance |
| Registry.PropagatedFresh | lib/index.ts:89 | registering a name that was not configured keeps every other name propagated |
| Registry.PropagatedEntry | lib/index.ts:80-89 | one legal entry keeps every reconfigured name propagated, its own name included when it was configured before |
| Registry.KeptAllStep | lib/index.ts:80-89 | one more entry keeps what the entries before it and it leave of every logger |
| Registry.KeptAllMore | lib/index.ts:80-89 | what the entries so far leave, the whole section leaves as well |
| Registry.ConfiguredStep | lib/index.ts:89 | registering an instance that matches its blueprint extends the installed plan by it |
| Registry.ReconciledConforms | lib/index.ts:30-55 | after `configureAppender` only listed names are keys and every listed configured name is one; without a list there is none |
| Registry.AppliedKept | lib/index.ts:111-118 | a configuration applied to one logger stays applied while only another logger changes |
| Registry.ReconciledApplied | lib/index.ts:113-117 | reconciling the record of a logger that has the configured level applies the configuration to it and changes no other logger |
| Registry.SectionStep | lib/index.ts:113-117 | applying entry i to its logger extends what the entries before it applied |
| Registry.SoFarStep | lib/index.ts:67-89 | a legal entry, installed as the section installs it, extends what the entries before it left |
| Registry.SoFarStart | lib/index.ts:65-67 | before the first entry nothing has changed |
| Registry.SoFarStopped | lib/index.ts:80-94 | where the section stops after `i` entries: every logger keeps its names, a logger holding none of the first `i` names is untouched, the registry holds the plan of the first `i` entries, and every holder of one of those names that was configured before holds the registry's instance |
| Registry.LoggersStep | lib/index.ts:113-117 | one more entry of the logger section, applied to its logger alone, extends what the entries before it left, the unnamed loggers included |
| Registry.UnnamedKeptStep | lib/index.ts:113-117 | changing only the logger of one entry keeps every logger no entry so far names |
| Registry.LeftAloneKept | lib/index.ts:65-118 | a logger that neither the root section nor the logger section names keeps what the appender section left it |
| Registry.SoFarDone | lib/index.ts:65-97 | after the whole section every logger keeps its names, the registry holds the plan and every holder of a reconfigured name holds the registry's instance |
| Registry.TreeInjective | lib/index.ts:14 | registered loggers are distinct objects, since each carries its own name |
| Registry.Register | lib/index.ts:130-134 | registering a new logger linked to its registered parent keeps the registry a tree |
| Registry.CollectProps | lib/index.ts:74-79 | the property loop sets exactly `CopyProps`: every present entry other than 'class' and 'level', in entry order, a later one overwriting an earlier one |
| Registry.Registry.Records | lib/index.ts:14 | one appender record per registered logger |
| Registry.Registry.Levels | lib/index.ts:14 | one level per registered logger |
| Registry.Registry.RecordsDistinct | lib/logger.ts:17 | in a well-formed registry no logger has two appenders of one name |
| Registry.Registry.DistinctRecordsValid | lib/logger.ts:17 | a tree of loggers with such records is a well-formed registry |
| Registry.Registry.constructor | lib/index.ts:14-15 | both registries start empty, before the module's start-up (Registry.Registry.Started) |
| Registry.StartupSection | lib/index.ts:18-23 | the start-up appender section is legal and yields one blueprint, CONSOLE, whose class is the console appender and which copies the `Class` property (lib skips only lower-case `class`) |
| Registry.Registry.Started | lib/index.ts:17-28 | module start-up: `useLog('bit.log', 'INFO')`, then `configureLogging` with CONSOLE on the root at INFO: afterwards 'bit.log' and the root are registered, CONSOLE is the only appender and holds the console blueprint, and the root section is applied |
| Registry.Registry.ConfigureStartup | lib/index.ts:18-28 | the `configureLogging` call of the start-up on empty appenders: CONSOLE is installed from its blueprint, the root section is applied and no logger is lost |
| Registry.Registry.Obtain | lib/index.ts:128-136 | the logger of the key is registered afterwards; existing loggers are untouched; each new logger lies on the key's path, has no appenders, and takes its parent's level (the root: ERROR) |
| Registry.Registry.UseLog | lib/index.ts:127-142 | corrected `useLog`: the logger of the name ('root' naming the root) is returned, created with its missing parents; with a valid level that logger gets it; no other logger's level or appenders change |
| Registry.Registry.UseLogAsWritten | lib/index.ts:127-142 | as written: a registered name returns its logger, which gets the level when one is given, and no logger is added; any name but 'root' returns its logger; `useLog('root')` before any 'root' key registers a fresh root without appenders in place of the existing one, returns undefined, and throws exactly when a level is given, whatever its text; a missing 'root.x' walks up through `useLog('root')`: the root is replaced by a fresh one without appenders and 'root.x' is created without a parent, at ERROR unless a level is given; every logger created under the name 'root' has no parent |
| Registry.Registry.ConfigureAppender | lib/index.ts:30-55 | the logger's record becomes the reconciled record, its level is untouched, and the warnings are one per unknown listed name in list order |
| Registry.Registry.AddConfigured | lib/index.ts:33-42 | the first loop adds the listed configured names the logger lacks and warns about the unknown ones, in order |
| Registry.Registry.DeleteUnlisted | lib/index.ts:43-48 | the second loop deletes exactly the keys that are not listed |
| Registry.Registry.DeleteAll | lib/index.ts:50-53 | without a list every key is deleted |
| Registry.Registry.ReplaceInLogger | lib/index.ts:83-86 | a logger holding the name gets the new instance in its place, in the same position |
| Registry.Registry.ReplaceEverywhere | lib/index.ts:82-87 | every registered logger's record is replaced as `ReplaceAll` says |
| Registry.Registry.BuildAppender | lib/index.ts:68-95 | fails exactly when the configuration is illegal, with its error; otherwise an instance of the configured class with the configured level and copied properties |
| Registry.Registry.ConfigureAppenderEntry | lib/index.ts:67-96 | an illegal entry changes nothing; a legal one registers the built instance under its name and, when the name was configured before, replaces it in every logger holding it |
| Registry.Registry.Install | lib/index.ts:80-89 | the name maps to the instance afterwards; when it was configured before, every holder gets the instance; no logger comes or goes |
| Registry.Registry.ConfigureNth | lib/index.ts:67-96 | entry i stops the section exactly when it is the first illegal one from i, and otherwise extends what the entries before it left |
| Registry.Registry.ConfigureEntries | lib/index.ts:67-96 | the loop over the entries stops at the first illegal one, and everything before it is installed |
| Registry.Registry.ConfigureAppenderSection | lib/index.ts:65-97 | the section stops at the first illegal entry; every logger keeps its names; when all entries are legal, each name holds the instance of its last entry and every holder of a reconfigured name has it; when entry `i` is illegal, the entries before it are installed, every holder of one of their names that was configured before holds the new instance, and every logger holding none of their names is untouched; no logger's level changes |
| Registry.Registry.ConfigureRegistered | lib/index.ts:30-55 | `configureAppender` on a registered logger changes its record and no other, and no level |
| Registry.Registry.ApplyLoggerConfig | lib/index.ts:113-117 | corrected `useLog('root')` (see Findings): after `useLog` and `configureAppender` the logger follows its configuration and every other logger keeps its appenders and level |
| Registry.Registry.ApplyEntry | lib/index.ts:113-117 | corrected `useLog('root')` (see Findings): entry i applied after the entries before it extends what they left: the loggers named so far follow their last entries, and every other logger keeps its record and level, or has no appenders when created since the section began |
| Registry.Registry.ConfigureLoggerSection | lib/index.ts:111-118 | corrected `useLog('root')` (see Findings): every logger an entry names follows the last entry naming it; a root that followed its section still does unless an entry names it; every logger no entry names keeps its record and level, and one created as a parent has no appenders |
| Registry.Registry.ConfigureLoggers | lib/index.ts:98-118 | corrected `useLog('root')` (see Findings): the root section, then the logger section: afterwards both are applied, the root section winning unless an entry names the root; a logger neither section names keeps its record and level, or has no appenders when created as a parent; the appender registry is unchanged |
| Registry.Registry.ConfigureLogging | lib/index.ts:63-119 | corrected `useLog('root')` (see Findings): an illegal appender entry fails with its message exactly when there is one, leaving the entries before it installed and propagated to their holders, loggers holding none of their names untouched, and no logger section applied; otherwise the registry holds the configured appenders, the root and logger sections are applied, and a logger neither section names keeps its level and what the appender section left it (its names, with the registry's instance under each reconfigured one), or has no appenders when created as a parent |
| Records.Keys | lib/logger.ts:148 | the names of a record, one per entry, in `Object.entries` order |
| Records.KeysSnoc | lib/logger.ts:79 | a new entry adds its name last |
| Records.Lookup | lib/logger.ts:78 | a name reads as absent exactly when it is not a key, and otherwise as the value of an entry of that name |
| Records.PutKeys | lib/logger.ts:79 | assigning to a name keeps the names and their order when it is a key, and appends it otherwise |
| Records.PutDistinct | lib/logger.ts:79 | assigning keeps the names distinct |
| Records.PutLookup | lib/logger.ts:79 | after assigning, the name reads as the new value and every other name as before |
| Records.PutLookupOthers | lib/logger.ts:79 | after assigning, every other name reads as before |
| Records.Put | lib/logger.ts:79 | the assigned entry is in the record afterwards, and every entry is an old one or the assigned one |
| Records.RemoveLookup | lib/logger.ts:93 | after `delete`, the name reads as absent and every other name as before |
| Records.Remove | lib/logger.ts:93 | the record does not grow, and every entry left was there before and has another name |
| Records.RemoveKeys | lib/logger.ts:93 | `delete` drops exactly that name, keeps the names distinct, and changes nothing when the name is not a key |
| Records.RemoveFacts | lib/logger.ts:91-97 | `delete` of a name leaves it absent, every other name as it was, the names distinct |
| Records.RemoveAllFacts | lib/index.ts:43-53 | deleting several names one after the other leaves exactly the other names, each with its value |
| Records.RemoveAllKeys | lib/index.ts:50-53 | deleting every name of a record leaves it empty |
| Records.RemoveAll | lib/index.ts:43-53 | every entry left was there before, and none has a deleted name |
| LegacyRegistry.JsonChar | src/index.ts:33 | a quote, a backslash or a control character is escaped; every other character is written as it is |
| LegacyRegistry.JsonCharsPlain | src/index.ts:33 | a string without quotes, backslashes and control characters is written unchanged inside the quotes |
| LegacyRegistry.JsonCharsLonger | src/index.ts:33 | escaping never shortens a string |
| LegacyRegistry.JsonText | src/index.ts:33 | a BigInt makes the text fail; a string is quoted and escaped; undefined, functions and symbols are written 'undefined' |
| LegacyRegistry.PropertyText | src/index.ts:30-34 | the 'class' property is written as its class hierarchy; any other property has a text exactly when its value can be written as JSON |
| LegacyRegistry.PropertyTexts | src/index.ts:29-36 | when the texts exist there is one per property |
| LegacyRegistry.PropertyTextsDefined | src/index.ts:29-36 | the texts exist exactly when every property has one, and the text at each position is that property's text |
| LegacyRegistry.PropertyTextsPrefix | src/index.ts:29-36 | when a prefix of the properties cannot be written, the whole cannot either (the loop stops at the first throw) |
| LegacyRegistry.AsString | src/index.ts:26-38 | the loop that puts ', ' before every property but the first yields the property texts joined by ', ' in braces, or fails as soon as one property cannot be written |
| LegacyRegistry.AsStringShape | src/index.ts:26-38 | the text exists exactly when every non-'class' value can be written as JSON, and it starts with '{' and ends with '}' |
| LegacyRegistry.AsStringOf | src/index.ts:26-38 | the text is in braces, and an empty configuration gives '{}' |
| LegacyRegistry.EntryError | src/index.ts:51-53 | a configuration is legal exactly when it is an appender configuration whose class constructs; it is NotAnAppender exactly when it is no appender configuration |
| LegacyRegistry.ErrorMessage | src/index.ts:76-81 | the raised message starts with 'illegal appender config ' and the asString text, ends with ', error: ' and the thrown error when the constructor threw, and is only that head otherwise; writing it fails exactly when asString fails |
| LegacyRegistry.Raise | src/index.ts:76-81 | the throw raises the message ErrorMessage describes |
| LegacyRegistry.InstanceLevel | src/index.ts:54-57 | an assigned 'level' gives the instance a level exactly when it is a number |
| LegacyRegistry.AssignedLevel | src/index.ts:54-57 | a level the entry loop leaves on the instance is the number of some 'level' entry |
| LegacyRegistry.AssignedAgreesWhenPresent | src/index.ts:54-57 | on a configuration whose values are all present, the src loop sets the same properties as the lib loop |
| LegacyRegistry.AssignEntries | src/index.ts:54-58 | the loop over the entries leaves the level and the properties that the last assignment of each key gives, 'class' skipped |
| LegacyRegistry.Verdicts | src/index.ts:50-82 | one verdict per entry |
| LegacyRegistry.VerdictAt | src/index.ts:50-82 | the verdict at each position is the verdict on that entry's configuration |
| LegacyRegistry.FirstIllegalIsFirst | src/index.ts:50-82 | the section fails exactly when some entry is illegal, and then at the first illegal entry |
| LegacyRegistry.ClassSource | src/__tests__/index.spec.ts:112 | the string form of a class declaration starts with 'class ' |
| LegacyRegistry.TestConfigEntries | src/__tests__/index.spec.ts:94-102 | the test configuration lists the class, 'someKey' and 'otherKey' in order, and its class throws on construction |
| LegacyRegistry.TestHierarchy | src/__tests__/index.spec.ts:105-106 | the hierarchy of the test class is the class followed by the class it extends |
| LegacyRegistry.TestClassText | src/__tests__/index.spec.ts:105-106 | the class property of the test configuration is written as its hierarchy |
| LegacyRegistry.TestNumberText | src/__tests__/index.spec.ts:105-106 | the number 100 is written '100' |
| LegacyRegistry.TestStringText | src/__tests__/index.spec.ts:105-106 | 'Hallo Welt' is written in double quotes |
| LegacyRegistry.TestTexts | src/__tests__/index.spec.ts:105-106 | the three property texts of the test configuration, in entry order |
| LegacyRegistry.ErrorMessageExample | src/__tests__/index.spec.ts:92-108 | the error of the test's throwing appender is exactly the message the test expects |
| LegacyRegistry.AboveShorter | src/index.ts:98-99 | every logger created above a name has a name no longer than it, so the recursion of useLogger ends |
| LegacyRegistry.Register | src/index.ts:100-101 | registering a new logger linked to the logger of its parent name keeps the tree of loggers |
| LegacyRegistry.LegacyRegistry.Records | src/index.ts:14-16 | the appender records are those of every registered logger and of the root under '' |
| LegacyRegistry.LegacyRegistry.constructor | src/index.ts:14-19 | start-up leaves the root logger at INFO holding only the console appender, registered as 'CONSOLE', and no other logger |
| LegacyRegistry.LegacyRegistry.UseLogger | src/index.ts:93-105 | '' gives the root; any other name gives its registered logger, creating it and every missing logger above it with no appenders and the parent's level; existing loggers stay as they were |
| LegacyRegistry.LegacyRegistry.ReplaceEverywhere | src/index.ts:59-74 | every logger holding an appender of the name, the root included, holds the new instance in its place and nothing else changes |
| LegacyRegistry.LegacyRegistry.Install | src/index.ts:59-75 | the registry maps the name to the instance; holders of a name already configured get the instance, other records are unchanged |
| LegacyRegistry.LegacyRegistry.BuildAppender | src/index.ts:51-58 | building fails exactly with the entry's error; otherwise the instance has the class, level and properties the entry describes |
| LegacyRegistry.LegacyRegistry.ConfigureAppenderEntry | src/index.ts:51-81 | an illegal entry changes nothing; a legal one installs its instance and replaces it in every holder when the name was configured |
| LegacyRegistry.LegacyRegistry.RecordsDistinct | src/index.ts:14-16 | every appender record of a well-formed registry has distinct names |
| LegacyRegistry.LegacyRegistry.DistinctRecordsValid | src/index.ts:14-16 | a tree of loggers whose records have distinct names is well formed |
| LegacyRegistry.LegacyRegistry.ConfigureNth | src/index.ts:50-82 | an illegal entry is the first illegal one from its position; a legal one extends what the entries before it configured |
| LegacyRegistry.LegacyRegistry.ConfigureEntries | src/index.ts:50-82 | the entries are configured in order up to the first illegal one, whose position is returned |
| LegacyRegistry.LegacyRegistry.ConfigureAppenderSection | src/index.ts:48-83 | the section stops at the first illegal entry; before it every configured name holds an instance of its last entry and earlier holders get the new instance; when entry `i` is illegal, the holders of the names before it that were configured before hold the new instances and a logger holding none of those names is untouched; no logger gains or loses a name and no level changes |
| LegacyRegistry.LegacyRegistry.ConfigureLogging | src/index.ts:46-91 | an error is raised exactly when an appender entry is illegal, with that entry's message, the entries before it configured and propagated to their holders and loggers holding none of their names untouched; the root and logger sections create no logger and change no level |
| LegacyRegistry.LegacyRegistry.ConfigureAppenders | src/index.ts:48-83 | the appender section with its throw: an error is raised exactly when an entry is illegal, with the message of the first illegal entry, after the entries before it were installed and propagated; otherwise every configured name holds an instance of its last entry |

## Left out

- Debug output of the loggers' own configuration messages (`log.debug`, `ROOT.debug`) is not modelled. Of lib's `log.warn` messages only the returned warnings are.
- Call-site capture (`includeCallSite`) relies on stack inspection; a call site is a field of the event.
- `truncateOrExtendLeft` is imported by lib/appender/AbstractBaseAppender.ts but its file is not part of this model. It is a parameter.
- The console appenders and the SQLite appender are not part of this model: console and database I/O.
- The promises of `emit` and of the file appender's write queue are not modelled, and neither is the `.catch` that reports a failed `handle`. A `handle` is a recorded call, and the queue is the order of the writes and their outcomes.
- The file system calls (`access`, `stat`, `appendFile`) are oracles. `path.join` is modelled as joining with '/' without normalising the path.
- `Date` and the host time zone are not modelled. A date is a record of its fields and `getTimezoneOffset`.
- Numbers are integers. Float rendering (7.37) and the number argument of the `Ansi` wrappers in lib/ansi.ts are not modelled.
- `JSON.stringify` of an object is a parameter. Lone surrogates in strings are not modelled.
- Property descriptors, getters and proxies are not modelled: `getAllEntries` reads resolved property lists, with the sentinel texts for accessors.
- `Function.prototype.toString` is a field of a `Callable`; `isClass` reads it.
- lib/logger.ts and lib/index.ts store configured level values as given. The model converts level names to their numbers with `toLogLevel` when a level is configured, and any other text gives no level. lib's `LogLevelType` and `LogLevelName` are not defined in the files of this model.
- Registry.Registry.ConfigureLogging: requires every appender configuration to be present. A null or undefined entry makes `isAppenderConfig` throw a TypeError, which is not modelled.
- LegacyRegistry.LegacyRegistry.ConfigureLogging: requires every appender configuration to be present, for the same reason.
- Arrays, Sets and Maps given as configuration objects have no own entries in the model.
- src/logger.ts is not part of this model. The src registry uses the lib `Logger`, and its `instanceof Logger` test always holds.
- LegacyRegistry.InstanceLevel: a 'level' entry that is not a number leaves the instance without a level. src/index.ts assigns the value unconverted.
- `toLogLevel(null)` of src/definitions.ts is not modelled.
- Utils.OffsetSuffixReadsBack: covers offsets under 100 hours only, where the hours fit the two digits.
- Registry.Registry.ConfigureLoggerSection: the warnings' text is not stated beyond their number and order.
- Registry.Registry.ConfigureLoggers: the warnings' text is not stated beyond their number and order.
- Registry.Registry.ApplyLoggerConfig: the warnings' text is not stated beyond their number and order.
- Registry.Registry.ConfigureLogging: the warnings' text is not stated beyond their number and order.
- Records: a record keeps its keys in insertion order, and `in` sees own keys only. In JavaScript `Object.entries` lists integer-like keys first, in ascending order, and `in` also sees inherited keys such as `constructor` and `toString`. Neither is modelled. This affects Logging.Logger.AddAppender, Logging.Logger.RemoveAppender, Logging.Logger.Emit, Registry.Registry.UseLog, Registry.Registry.UseLogAsWritten, Registry.Registry.ConfigureAppender, Registry.Registry.AddConfigured, Registry.Registry.ConfigureAppenderSection, Registry.Registry.Install, Registry.Registry.ConfigureLogging, LegacyRegistry.LegacyRegistry.UseLogger, LegacyRegistry.LegacyRegistry.ConfigureAppenderSection, LegacyRegistry.LegacyRegistry.Install, Definitions.ToLogLevel, LegacyDefinitions.ToLogLevel and LegacyDefinitions.ToLogLevelAsWritten: for example, `addAppender('constructor', a)` does nothing in JavaScript, appenders added as 'b' then '1' are called '1' first, and in src `toLogLevel('toString')` returns `Object.prototype.toString` where the as-written model fails.
- Logging.Logger.LogEvent: a lazy first argument is a call that returns a string (`Callable.callResult`). A class or a throwing function, whose call throws out of `log.*`, and a function returning anything but a string are not modelled.
- Logging.Logger.LogEvent: uses the corrected payload of the Findings row for lib/logger.ts:40-45. For `log.info(() => 'x')` the source emits the bare result 'x', which the file appender cannot write; the model emits the argument list ['x'].
- Utils.FormatPrefix: uses the corrected zone suffix of the Findings row for lib/utils.ts:232. At offset -330 it prints '+05:30' where the source prints '+06:30'.
- AppenderBase.FormatPrefix: uses the corrected zone suffix, so at offset -330 it prints '+05:30' where the source prints '+06:30'.
- FileAppending.WriteLine: its prefix uses the corrected zone suffix, so at offset -330 it prints '+05:30' where the source prints '+06:30'.
- Utils.LegacyFormatPrefix: uses the corrected zone suffix; at offset -330 it prints '+05:30' where src/utils.ts:24, reached through src/utils.ts:86, prints '+06:30'.
- Registry.Registry.ApplyLoggerConfig: uses the corrected `useLog` of the Findings row for lib/index.ts:127-142. A logger entry 'root' is applied to the root, where the source replaces the root with a fresh logger and then throws a TypeError. A logger entry such as 'root.child' is linked under the registered root and takes its level, where the source replaces the root with a fresh one and creates 'root.child' without a parent, at ERROR.
- Registry.Registry.ApplyEntry: uses the corrected `useLog`, so a logger entry 'root' is applied to the root where the source throws a TypeError, and a logger entry such as 'root.child' is linked under the registered root where the source replaces the root and leaves 'root.child' without a parent.
- Registry.Registry.ConfigureLoggerSection: uses the corrected `useLog`, so a logger entry 'root' is applied to the root where the source throws a TypeError, and a logger entry such as 'root.child' is linked under the registered root where the source replaces the root and leaves 'root.child' without a parent.
- Registry.Registry.ConfigureLoggers: uses the corrected `useLog`, so a logger entry 'root' is applied to the root where the source throws a TypeError, and a logger entry such as 'root.child' is linked under the registered root where the source replaces the root and leaves 'root.child' without a parent.
- Registry.Registry.ConfigureLogging: uses the corrected `useLog`, so a logger entry 'root' is applied to the root where the source throws a TypeError, and a logger entry such as 'root.child' is linked under the registered root where the source replaces the root and leaves 'root.child' without a parent.
- LegacyDefinitions.ToLogLevel: uses the corrected `in` test of the Findings row for src/definitions.ts:48-50. `toLogLevel('20')` fails in the model, while the source returns 'INFO'.
- Registry.EntryError: a property assignment that throws is not modelled. In lib/index.ts:77 `instance[key] = value` throws for a throwing setter or a getter-only property, and the catch at line 90 turns that into 'illegal appender config …, error: …'. Here only the constructor can throw, and copying properties always succeeds.
- Registry.Registry.BuildAppender: cannot fail while copying properties, for the reason given for Registry.EntryError.
- LegacyRegistry.EntryError: a property assignment that throws is not modelled. In src/index.ts:56 the assignment can throw in the same way, and the catch at line 76 turns that into the 'illegal appender config' error.
- LegacyRegistry.LegacyRegistry.BuildAppender: cannot fail while assigning properties, for the reason given for LegacyRegistry.EntryError.
- Utils.TruncateMiddle: lengths count characters (code points); JavaScript's `length` and `slice` count UTF-16 code units. A character outside the Basic Multilingual Plane counts once here and twice in the source, so the source cuts such a string sooner and can leave half of a surrogate pair beside '...'.
- Utils.TruncateOrExtend: the width counts characters, where `length` and `padEnd` count UTF-16 code units. The logger-name field of the prefix (width 20, lib/utils.ts:286) is therefore measured in characters here. For example, `truncateOrExtend('\u{1F600}abc', 4)` keeps the string here, but in the source its length is 5 and the result is the lone high surrogate of U+1F600 followed by '...'.
- Formatter.FunctionText: the cut at 100 counts characters, where `substring(0, 100)` and `length > 100` count UTF-16 code units. A first line with characters outside the Basic Multilingual Plane is cut sooner in the source.
- Values: a heap node is not checked for well-formedness. Set members and Map keys need not be distinct, so the size of a node can differ from the size of a real Set or Map. The own properties of an object include non-enumerable ones, where `Object.entries` lists only enumerable ones.

## Findings

| source | as written | input that shows it | evidently intended | confidence | as-written member | corrected member |
|---|---|---|---|---|---|---|
| lib/utils.ts:232 | `Math.abs(Math.floor(offset / 60))` rounds the hours of a negative offset down before dropping the sign; src/utils.ts:24 has the same expression | offset -330 (UTC+05:30) gives '+06:30' | '+05:30', the hours of the absolute offset | not executed | Utils.AsWrittenMisstatesHalfHourEast | Utils.OffsetSuffixReadsBack |
| lib/index.ts:127-142 | `useLog('root')` tests `'root' in LoggerRegistry` although the root is stored under '' | `useLog('root')` registers a fresh root without appenders and returns undefined; `useLog('root.child')` does the same on its way up and creates 'root.child' without a parent, at ERROR | the registered root logger | not executed | Registry.Registry.UseLogAsWritten | Registry.Registry.UseLog |
| lib/logger.ts:40-45 | a function argument's result becomes the payload itself, not an argument list | `log.info(() => 'x')` reaches the file appender, whose `payload.map` throws | the result logged as the only argument | not executed | FileAppending.AsWrittenLazyPayloadIsLost | FileAppending.LoggedLazyPayloadIsWritten |
| src/definitions.ts:48-50 | `value in LogLevel` also admits the enum's reverse-mapping keys | `toLogLevel('20')` returns 'INFO' | a failure: '20' is no level name | not executed | LegacyDefinitions.AsWrittenTurnsTextIntoName | LegacyDefinitions.StrictFailureExamples |
