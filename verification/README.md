# FZRealm value bridge, modelled in Dafny

FZRealm lets application value types be stored as fields of Realm objects.
Realm itself only stores primitives and lists of primitives. So each value
type packs itself into a `PersitableArray`, a fixed-position array of
`Double` or `Int` components. It unpacks itself again by reading those
positions back. This project models that codec. It also models the two
containers it rests on: the `PersitableArray` embedded object and the
`List` extension that builds and appends to Realm lists.

Modules, one per source file:

- `Traps` (traps.dfy): the two ways the Swift code can stop at run time. One
  is a subscript out of range, the other a force unwrap of nil. Each is a
  `Trapped` value of `Result`, so contracts can say exactly when a decoder
  stops.
- `Persistable` (persistable.dfy): the encoders (`persistableValue`) and
  decoders (`init(persistedValue:)`) for `CGPoint`, `CGSize`, `CGRect`,
  `DataSize`, `CGColor` and `NSColor`/`UIColor`. They work on the element
  sequence of the `PersitableArray`. Every encoder is a total function with
  no precondition. Every decoder returns `Trapped(IndexOutOfRange(|a|))` on an
  array shorter than the indices it reads. Swift evaluates the subscripts
  left to right, so the first missing index is the one that traps. Elements
  after the last index read are ignored.
- `RealmList` (list_ext.dfy): Realm's `List` as a class with an `elements`
  field. `append(objectsIn:)` is a loop of single appends, specified by
  `AppendEach` (append the elements one by one). `AppendEachConcatenates`
  proves that this is concatenation. The two initialisers and `+=` are built
  on it.
- `PersitableArrayFinal` (persitable_array_final.dfy) and
  `PersitableArrayOpen` (persitable_array_open.dfy): the two declarations of
  `PersitableArray` in the repository, one per file. Both hold a `List` in
  their `array` property, which is called `list` in Dafny because `array` is
  a reserved word. The open variant's convenience initialiser first runs
  `self.init()`, which leaves the declared default `[]`. It then replaces that
  list.

Modelling choices:

- `Double` is `real` and `Int` is `int`. The codec only copies components,
  apart from the absolute value that CoreGraphics applies in
  `CGRect.width`/`height` (see Findings).
- `DataSize.CountStyle` belongs to FZSwiftUtils, which is not part of this
  model. It is modelled as an enumeration with an injective `rawValue` and a
  partial `init(rawValue:)`, the shape the force unwrap at
  Sources/FZRealm/Extensions/Persistable+.swift:88 presumes. Four cases
  numbered 0 to 3 stand in for its cases. Every property is stated through
  `rawValue` and `init(rawValue:)`, so none of them depends on those numbers.
- A colour is represented by what its `rgbaComponents()` returns. That is an
  optional RGBA for `CGColor` and a plain RGBA for `NSColor`/`UIColor`.
  Decoding a colour is modelled up to the four arguments handed to
  `init(red:green:blue:alpha:)`.
- `CGRect.x` and `CGRect.y` are taken to be `origin.x` and `origin.y`. The
  accessor comes from FZSwiftUtils, which is not part of this model.

No decoder checks the length of the array it reads. A short array traps on
its first missing index, and a long one is read without complaint.

## Model

| member | source | states |
|---|---|---|
| `Persistable.EncodePoint` | Sources/FZRealm/Extensions/Persistable+.swift:41-43 | total; exactly two components, which decode back to the same point |
| `Persistable.DecodePoint` | Sources/FZRealm/Extensions/Persistable+.swift:37-39 | traps at index \|a\| when fewer than 2 components; otherwise the point (a[0], a[1]) |
| `Persistable.PointComponentsRoundTrip` | Sources/FZRealm/Extensions/Persistable+.swift:37-43 | decoding then encoding restores exactly the two components read |
| `Persistable.EncodeSize` | Sources/FZRealm/Extensions/Persistable+.swift:53-55 | total; exactly two components, which decode back to the same size |
| `Persistable.DecodeSize` | Sources/FZRealm/Extensions/Persistable+.swift:49-51 | traps at index \|a\| when fewer than 2 components; otherwise the size (a[0], a[1]) |
| `Persistable.SizeComponentsRoundTrip` | Sources/FZRealm/Extensions/Persistable+.swift:49-55 | decoding then encoding restores exactly the two components read |
| `Persistable.EncodeRectAsWritten` | Sources/FZRealm/Extensions/Persistable+.swift:65-67 | four components `[x, y, width, height]`; they decode back to the same rect if and only if its width and height are not negative |
| `Persistable.NegativeWidthRectLosesSign` | Sources/FZRealm/Extensions/Persistable+.swift:65-67 | a rect of width -1 is read back with width 1 |
| `Persistable.EncodeRect` | Sources/FZRealm/Extensions/Persistable+.swift:65-67 | total; four components that decode back to the same rect for every rect, equal to the as-written encoding whenever the size is not negative |
| `Persistable.DecodeRect` | Sources/FZRealm/Extensions/Persistable+.swift:61-63 | traps at index \|a\| when fewer than 4 components; otherwise the rect with x, y, width, height = a[0..3] |
| `Persistable.RectComponentsRoundTripAsWritten` | Sources/FZRealm/Extensions/Persistable+.swift:61-67 | decoding then encoding as written restores exactly the four components read if and only if the width and height read are not negative |
| `Persistable.RectComponentsRoundTrip` | Sources/FZRealm/Extensions/Persistable+.swift:61-67 | with the corrected encoder `EncodeRect`, decoding then encoding restores exactly the four components read, for every array of at least four |
| `Persistable.CountStyleFromRaw` | Sources/FZRealm/Extensions/Persistable+.swift:88 | a style it returns has the given raw value; nil exactly when no style has that raw value |
| `Persistable.CountStyleRawValueRoundTrip` | Sources/FZRealm/Extensions/Persistable+.swift:92 | every style is recovered from its raw value; `rawValue` is injective |
| `Persistable.EncodeDataSize` | Sources/FZRealm/Extensions/Persistable+.swift:91-93 | total; exactly two components, which decode back to the same bytes and count style |
| `Persistable.DecodeDataSize` | Sources/FZRealm/Extensions/Persistable+.swift:87-89 | traps at index \|a\| when fewer than 2 components; traps on the force unwrap when a[1] is no style's raw value; succeeds exactly otherwise, with bytes a[0] and the style whose raw value is a[1] |
| `Persistable.DataSizeComponentsRoundTrip` | Sources/FZRealm/Extensions/Persistable+.swift:87-93 | for a valid raw value, decoding then encoding restores exactly the two components read |
| `Persistable.EncodeCGColor` | Sources/FZRealm/Extensions/Persistable+.swift:100-103 | total; four components; they read back as the colour's RGBA components when it has them, otherwise as (0, 0, 0, 0) |
| `Persistable.EncodeNSUIColor` | Sources/FZRealm/Extensions/Persistable+.swift:118-121 | total; four components that read back as the colour's RGBA components |
| `Persistable.DecodeColorArguments` | Sources/FZRealm/Extensions/Persistable+.swift:106-110 | traps at index \|a\| when fewer than 4 components; otherwise red, green, blue, alpha = a[0..3] (the same reading at lines 124-128) |
| `Persistable.ColorComponentsRoundTrip` | Sources/FZRealm/Extensions/Persistable+.swift:124-128 | four components read as colour arguments encode back to exactly those components, for both colour types, taking the rebuilt colour's `rgbaComponents()` to be those arguments |
| `Persistable.TrailingComponentsIgnored` | Sources/FZRealm/Extensions/Persistable+.swift:37-128 | no decoder checks the length: components after the last index read change nothing |
| `RealmList.AppendEachConcatenates` | Sources/FZRealm/Extensions/List+.swift:28 | appending the elements one at a time yields old list followed by the new elements |
| `RealmList.AppendEachKeepsPrefix` | Sources/FZRealm/Extensions/List+.swift:27-29 | the old elements stay as the prefix, the new ones follow in order, length grows by their number, appending nothing changes nothing |
| `RealmList.List.constructor` | Sources/FZRealm/Extensions/List+.swift:18 | `List()` is empty |
| `RealmList.List.Append` | Sources/FZRealm/Extensions/List+.swift:28 | one element added at the end |
| `RealmList.List.AppendObjectsIn` | Sources/FZRealm/Extensions/List+.swift:19 | the elements become the old elements followed by `values`, appended one by one |
| `RealmList.List.FromSequence` | Sources/FZRealm/Extensions/List+.swift:17-20 | the new list holds exactly the sequence's elements, in order |
| `RealmList.List.FromArrayLiteral` | Sources/FZRealm/Extensions/List+.swift:22-25 | the new list holds exactly the literal's elements, in order |
| `RealmList.AppendAssign` | Sources/FZRealm/Extensions/List+.swift:27-29 | `lhs += rhs`: the list becomes old `lhs` followed by `rhs`, keeps its old prefix, grows by \|rhs\|, and is unchanged for empty `rhs` |
| `PersitableArrayFinal.PersitableArray.FromArrayLiteral` | Sources/FZRealm/Extensions/PersitableArray.swift:40-42 | `array` is a new list holding the literal's elements in order |
| `PersitableArrayFinal.PersitableArray.constructor` | Sources/FZRealm/Extensions/PersitableArray.swift:44-46 | `array` is a new list holding exactly `values` |
| `PersitableArrayFinal.PersitableArray.Subscript` | Sources/FZRealm/Extensions/PersitableArray.swift:50-52 | requires 0 <= index < count; returns the element at `index`; reads only, changes nothing |
| `PersitableArrayOpen.PersitableArray.FromArrayLiteral` | Sources/FZRealm/PersitableArray.swift:18-20 | `array` is a new list holding the literal's elements in order |
| `PersitableArrayOpen.PersitableArray.constructor` | Sources/FZRealm/PersitableArray.swift:22-27 | starts from the default empty list and replaces it; `array` ends as a new list holding exactly `values` |
| `PersitableArrayOpen.PersitableArray.Subscript` | Sources/FZRealm/PersitableArray.swift:29-31 | requires 0 <= index < count; returns the element at `index`; reads only, changes nothing |

## Findings

| source | as written | input that shows it | evidently intended | confidence | as-written member | corrected member |
|---|---|---|---|---|---|---|
| Sources/FZRealm/Extensions/Persistable+.swift:66 | encodes `width` and `height`, which CoreGraphics returns standardised (never negative) | `CGRect(x: 0, y: 0, width: -1, height: 1)` is read back with width 1 | store the rect's own size (`size.width`, `size.height`) so that every rect round-trips | medium (rests on CoreGraphics' documented `width`/`height`); not executed | `Persistable.EncodeRectAsWritten`, `Persistable.NegativeWidthRectLosesSign` | `Persistable.EncodeRect` |

## Left out

- URL codec (`Sources/FZRealm/Extensions/Persistable+.swift:21-31`): its round trip rests on `URL(fileURLWithPath:)` and `.path`, whose behaviour is Foundation's.
- TimeDuration codec (`Sources/FZRealm/Extensions/Persistable+.swift:71-81`): `init(_:)` and `.seconds` belong to FZSwiftUtils, which is not part of this model.
- Colour reconstruction: `init(red:green:blue:alpha:)` depends on the colour space. The model stops at the four arguments it is given. `rgbaComponents()` is a field of the colour values and is not computed.
- Persistable.ColorComponentsRoundTrip: assumes that `rgbaComponents()` of the colour built by `init(red:green:blue:alpha:)` returns the four arguments it was built from. That initialiser depends on the colour space and is not modelled, so the lemma is about the arguments, not about the colour object.
- Persistable.DecodeDataSize: the force-unwrap trap assumes that `CountStyle(rawValue:)` returns nil for a number that is no style's raw value. If FZSwiftUtils' `CountStyle` is an enumeration imported from Objective-C, that initialiser accepts every number, and the trap never happens.
- IEEE-754 behaviour of `Double` (NaN, signed zero, rounding): the codec does no arithmetic on components.
- `Int` is unbounded in the model. Bytes and raw values are only copied, so 64-bit width never matters.
- Element types of `PersitableArray` are not limited to Realm's primitive types. Swift's generic constraint `RealmCollectionValue & _Persistable` has no counterpart, and a Dafny `seq<T>` is homogeneous by its type.
- Persistence: the `@Persisted` and `EmbeddedObject` behaviour of `PersitableArray`, and Realm storage of `List`, are not modelled.
- Which `init()` the open variant's `self.init()` resolves to is Realm's concern. The model takes it to be the initialiser that only sets the declared default `[]`.
- `RealmManager.swift`, `DBManager.swift` and `RealmObject.swift`: store handles, transactions, CRUD and asynchronous writes all delegate to Realm. Modelling them would mean inventing Realm's store semantics, file-system behaviour and concurrency. The one local check there, `primaryKey() != nil` before an update, guards calls into Realm whose effect cannot be stated.
- `URL+.swift` and the default database file location: platform path resolution.
- `Package.swift`: build manifest.
