# pixkey in Dafny

A model of the key-classification core of `pixkey`, the library that
recognises, normalises and formats keys of PIX, Brazil's instant-payment
system. A PIX key is one of five kinds: a CPF (individual taxpayer number),
a CNPJ (company taxpayer number), a random key (a UUID), a phone number or an
e-mail address. The library has three entry points:

- `validate(key)` trims the key and lists every kind whose recognizer accepts
  it, in the fixed order CPF, CNPJ, random, phone, e-mail;
- `normalize(key, as)` resolves that list to one kind and rewrites the trimmed
  key into the kind's canonical form: digits only for CPF and CNPJ, the key
  itself for random keys and e-mails, the E.164 number for phones;
- `format(key, as)` normalises, re-validates the normalised key, resolves
  again and produces the display form: the CPF or CNPJ mask, the key itself,
  or a phone in national notation (Brazil) or international notation.

A key can match several kinds. `85966078033` is both a valid CPF and a valid
phone number. The optional hint `as` chooses among the matches; a key that
matches a single kind ignores the hint.

Both sources of the library are modelled:

- `src/index.ts` (modules `PixKeyTs`, `Classifier`) is the typed version;
- `src/index.js` (module `PixKeyJs`) is the older untyped one, whose `format`
  differs in three ways. When the key is ambiguous and there is no truthy
  hint, it falls back to the first match. When `normalize` gives null, it
  throws instead of returning null. When `normalize` gives the empty string,
  it validates and formats that string instead of returning null.

The recognizers, the phone parser and the masks come from third-party
packages. The model takes them as parameters: `Collaborators.Libraries` is a
record of functions. So every result holds for any implementation of them.
The lemmas that mirror the test suite state the recognizer answers they rely
on as preconditions.

Modules:

| file | module | contents |
|---|---|---|
| basics.dfy | `Basics` | `Option` (JavaScript's null), subsequences |
| text.dfy | `JsText` | `String.prototype.trim` and the digit strip `replace(/[^0-9]/g, '')` |
| kinds.dfy | `PixKeyTypes` | the five kinds, their tags, their priority order |
| collaborators.dfy | `Collaborators` | the third-party functions the library calls |
| classifier.dfy | `Classifier` | `validate`: the specification function `Classify` and the method `Validate` |
| pixkey_ts.dfy | `PixKeyTs` | `normalize` and `format` of `src/index.ts` |
| pixkey_js.dfy | `PixKeyJs` | `normalize` and `format` of `src/index.js`, and how they relate to the typed ones |

## Model

| member | source | states |
|---|---|---|
| JsText.TrimStart | src/index.ts:24 | The result does not start with ECMAScript whitespace and is no longer than the input. |
| JsText.TrimEnd | src/index.ts:24 | The result does not end with ECMAScript whitespace, is no longer than the input and starts where the input starts. |
| JsText.Trim | src/index.ts:24 | The trimmed key has whitespace at neither end and is no longer than the input. |
| JsText.TrimStartIsSuffix | src/index.ts:24 | The leading trim removes characters from the front only: its result is a suffix of the input. |
| JsText.TrimEndIsPrefix | src/index.ts:24 | The trailing trim removes characters from the back only: its result is a prefix of the input. |
| JsText.TrimStartDropsWhitespace | src/index.ts:24 | Every character the leading trim removes is whitespace. |
| JsText.TrimEndDropsWhitespace | src/index.ts:24 | Every character the trailing trim removes is whitespace. |
| JsText.TrimDropsLeadingWhitespace | src/index.ts:24 | The characters of the input before the trimmed key are all whitespace. |
| JsText.TrimDropsTrailingWhitespace | src/index.ts:24 | The characters of the input after the trimmed key are all whitespace. |
| JsText.TrimIsSlice | src/index.ts:24 | The trimmed key is the slice of the input between the leading and the trailing whitespace. |
| JsText.TrimIsEdgeStrip | src/index.ts:24 | `trim` returns a slice `s[i..j]` of its input, with only whitespace before `i` and after `j`. |
| JsText.TrimKeepsTrimmed | src/index.ts:24 | A key with no whitespace at either end is returned unchanged. |
| JsText.TrimIdempotent | src/index.ts:49 | Trimming twice is trimming once, so `normalize` trimming before `validate` trims again changes nothing. |
| JsText.DigitStringIsTrimmed | src/index.ts:67 | A digits-only string has nothing to trim. |
| JsText.StripNonDigits | src/index.ts:67 | The strip yields only ASCII digits and is no longer than its input. |
| JsText.StripKeepsDigitsInOrder | src/index.ts:67 | The strip yields exactly the decimal digits of its input, in order, each as often as in the input. |
| JsText.StripFixesExactlyDigitStrings | src/index.ts:67 | The strip leaves a string unchanged if and only if the string is all digits. |
| JsText.StripDistributes | src/index.ts:67 | The strip works character by character, so it distributes over concatenation. |
| JsText.StripIdempotent | src/index.ts:67 | Stripping twice is stripping once. |
| PixKeyTypes.Tag | src/index.ts:6-10 | The string value of each `PIX_KEY_*` constant, defined without a contract; `ParseTag` is its inverse. |
| PixKeyTypes.ParseTag | src/index.ts:6-17 | Reading a tag back gives the kind with that tag and nothing else. The five tags are distinct. |
| PixKeyTypes.Rank | src/index.ts:26-40 | Each kind has a position in the order in which `validate` tests it. |
| PixKeyTypes.PriorityIsOrderedAndComplete | src/index.ts:26-40 | `validate` tests every kind once, in strictly increasing priority. |
| PixKeyTypes.OrderedHeadComesFirst | src/index.js:79-81 | The first entry of an ordered match list has the highest priority among its members. |
| PixKeyTypes.OrderedByMembers | src/index.ts:22-43 | Two priority-ordered kind lists with the same members are equal. |
| Classifier.Accepts | src/index.ts:26-40 | Which recognizer `validate` calls for each kind (CPF and CNPJ checks, UUID check, phone check, e-mail check), defined without a contract. |
| Classifier.SelectMembers | src/index.ts:26-40 | Filtering a kind list keeps exactly the kinds whose recognizer accepts the key. |
| Classifier.SelectIsSubsequence | src/index.ts:26-40 | Filtering keeps the kinds in their original order. |
| Classifier.SelectKeepsOrder | src/index.ts:26-40 | Filtering a priority-ordered list gives a priority-ordered list. |
| Classifier.Classify | src/index.ts:22-43 | `validate` as a specification function: the priority list filtered by the recognizers on the trimmed key. It has no contract of its own; `ClassifySpec` states its properties. |
| Classifier.ClassifySpec | src/index.ts:22-43 | `validate` returns exactly the kinds whose recognizer accepts the trimmed key, each once, in priority order, as a subsequence of the priority list. |
| Classifier.SelectSnoc | src/index.ts:26-40 | Testing one more kind appends that kind, or nothing, to the matches found so far. |
| Classifier.SelectFive | src/index.ts:26-40 | Filtering five kinds is the concatenation of the five single tests. |
| Classifier.ClassifyUnfolded | src/index.ts:26-40 | `validate` is its five conditional pushes, in priority order. |
| Classifier.Validate | src/index.ts:22-43 | The step-by-step list building of `validate` returns `Classify` of the key. |
| Classifier.ClassifyIsTheOrderedAcceptedList | src/index.ts:22-43 | Any ordered list of exactly the accepted kinds is the result of `validate`. |
| Classifier.ClassifyExactly | src/index.ts:22-43 | A key that exactly one recognizer accepts validates as that single kind. |
| Classifier.SelectCpfAndPhone | src/index.ts:26-40 | A key only the CPF and phone recognizers accept filters the priority list to `['cpf', 'phone']`. |
| Classifier.ClassifyIgnoresTrim | src/index.ts:49-51 | `validate` of the trimmed key equals `validate` of the key. |
| Classifier.CpfAndPhoneClassification | src/index.ts:26-40 | A trimmed key that only the CPF and phone recognizers accept validates as `['cpf', 'phone']`. |
| Classifier.DualKeyClassification | test/tests.js:72-74 | `85966078033` validates as `['cpf', 'phone']` when the CPF and phone recognizers accept it and the others reject it. |
| PixKeyTs.Resolve | src/index.ts:52-62 | A single match wins whatever the hint. With zero or several matches, a kind is chosen exactly when the hint is one of the matches, and then it is the hint. |
| PixKeyTs.Canonical | src/index.ts:64-77 | A CPF or CNPJ becomes a digit string no longer than the key. A random key or an e-mail stays itself. |
| PixKeyTs.InBrazil | src/index.ts:116 | The phone test `country === 'BR'`, defined without a contract. |
| PixKeyTs.Display | src/index.ts:103-123 | The display switch of `format`: a random key or an e-mail is shown as it is. The CPF and CNPJ masks and the phone notation are stated by `FormatMasksNationalIds` and `FormatPhoneByCountry`. |
| PixKeyTs.Normalize | src/index.ts:48-81 | A non-null result means the key matched some kind. A non-null result for an ambiguous key means the hint was one of its matches. |
| PixKeyTs.NormalizeRejectsUnmatched | src/index.ts:58-59 | A key no recognizer accepts normalises to null, whatever the hint. |
| PixKeyTs.NormalizeAmbiguousNeedsHint | src/index.ts:52-57 | An ambiguous key is normalised if and only if the hint names a kind that accepts it, and then it is normalised as that kind. |
| PixKeyTs.NormalizeSingleMatchIgnoresHint | src/index.ts:60-62 | With exactly one match, any two hints give the same result: that match's canonical form. |
| PixKeyTs.NormalizeNationalIdToDigits | src/index.ts:65-67 | A key resolved as CPF or CNPJ normalises to exactly the digits of the trimmed key, in order, and that result is a fixed point of the strip. |
| PixKeyTs.NormalizeKeepsRandomAndEmail | src/index.ts:69-71 | A key resolved as random key or e-mail normalises to the trimmed key. |
| PixKeyTs.NormalizePhoneToE164 | src/index.ts:73-76 | A key resolved as phone normalises to the parser's E.164 number for the trimmed key. |
| PixKeyTs.StripOfTrimmedDigits | src/index.ts:67 | The digits of a key survive a second trim and strip unchanged. |
| PixKeyTs.CanonicalIsFixed | src/index.ts:64-77 | A canonical form is its own canonical form after trimming. For phones this holds when the parser returns the E.164 number unchanged. |
| PixKeyTs.NormalizeIdempotent | src/index.ts:48-81 | Normalising a normalised key again gives it back, provided it resolves to the same kind (and, for phones, the parser keeps E.164 numbers). |
| PixKeyTs.NormalizeDualKey | test/tests.js:131-137 | A digit key that is both CPF and phone normalises to null without a hint, to itself as CPF, and to the parser's E.164 number as phone. |
| PixKeyTs.NormalizeSoleCpf | src/index.ts:60-67 | A trimmed key only the CPF recognizer accepts normalises, without a hint, to its digits. |
| PixKeyTs.NormalizeFormattedCpf | test/tests.js:83-85 | `036.376.490-98` normalises to `03637649098` when only the CPF recognizer accepts it. |
| PixKeyTs.StripGroupThenSeparator | src/index.ts:67 | A digit group followed by a separator keeps the group and drops the separator. |
| PixKeyTs.FormattedCpfStrip | test/tests.js:83-85 | The strip turns `036.376.490-98` into `03637649098`. |
| PixKeyTs.Format | src/index.ts:86-124 | A non-null result means `normalize` gave a non-empty key that itself matches some kind. |
| PixKeyTs.FormatRejectsFailedNormalize | src/index.ts:87-88 | `format` gives null whenever `normalize` gives null or the empty string. |
| PixKeyTs.FormatResolvesAgain | src/index.ts:90-101 | `format` gives null exactly when the normalised key matches nothing, or matches several kinds and the hint is not among them. |
| PixKeyTs.FormatMasksNationalIds | src/index.ts:104-108 | A normalised key resolved as CPF or CNPJ is passed through the matching mask. |
| PixKeyTs.FormatKeepsRandomAndEmail | src/index.ts:110-112 | A non-empty key resolved as a random key or e-mail is formatted as its trimmed self, which is also its normalisation. |
| PixKeyTs.FormatPhoneByCountry | src/index.ts:114-119 | A normalised key resolved as phone is formatted in national notation exactly when its country is BR, and in international notation otherwise. |
| PixKeyTs.FormatDualKey | test/tests.js:189-195 | The dual key formats to null without a hint, to the CPF mask of itself as CPF, and to the phone display of its E.164 form as phone. |
| PixKeyJs.AsKind | src/index.js:43 | A hint string stands for the kind whose tag it is. A tag string always stands for its kind. |
| PixKeyJs.TagOf | src/index.js:43 | Passing the tag of a typed hint is read back as that same hint. |
| PixKeyJs.HintedKind | src/index.js:43-47 | `useAs.includes(as)` succeeds if and only if the hint is the tag of one of the matches, and then it yields that match. |
| PixKeyJs.Truthy | src/index.js:73 | JavaScript truthiness of the hint in `if(as)`: null and the empty string are falsy. Defined without a contract. |
| PixKeyJs.ResolveForNormalize | src/index.js:42-52 | The hint rule of `normalize`: the result is always one of the matches; a single match wins whatever the hint; otherwise the result is the match the hint names, if any. |
| PixKeyJs.ResolveForNormalizeAgrees | src/index.js:42-52 | The untyped hint rule of `normalize` is the typed rule applied to the kind the hint names. |
| PixKeyJs.ResolveForFormat | src/index.js:72-86 | The hint rule of `format`: the result is always one of the matches; no match gives nothing; a single match wins; an ambiguous key takes its first match under a falsy hint and the match a truthy hint names otherwise. |
| PixKeyJs.Normalize | src/index.js:38-66 | A non-null result means the key matched some kind. A single match always gives a non-null result. |
| PixKeyJs.Format | src/index.js:68-103 | `format` throws a TypeError exactly when `normalize` returned null. |
| PixKeyJs.NormalizeAgreesWithTs | src/index.js:38-66 | For every key and every hint string, the untyped `normalize` equals the typed one given the kind the string names. A string naming no kind acts as null. |
| PixKeyJs.NormalizeAgreesOnTypedHints | src/index.js:38-66 | Called with a kind's tag, the untyped `normalize` equals the typed one. |
| PixKeyJs.NormalizeAmbiguousNeedsHint | src/index.js:42-47 | An ambiguous key is normalised if and only if the hint is the tag of one of its matches. The default null hint gives null. |
| PixKeyJs.NormalizeZeroOrOneMatch | src/index.js:48-52 | No match gives null. A single match gives its canonical form whatever the hint. |
| PixKeyJs.FormatFallsBackToFirstMatch | src/index.js:72-81 | An ambiguous normalised key with a falsy hint is formatted as its first match, which has the highest priority among the matches. |
| PixKeyJs.FormatRejectsForeignHint | src/index.js:73-78 | An ambiguous normalised key with a truthy hint that names none of its matches formats to null. |
| PixKeyJs.FormatAgreesWithTs | src/index.js:68-103 | For a non-empty normalised key with at most one match, or with a truthy hint, the untyped `format` returns what the typed one returns. |
| PixKeyJs.FormatDivergesFromTs | src/index.js:69-81 | Where the two differ: a null from `normalize` is null in the typed version and a TypeError here. An ambiguous normalised key with a falsy hint is null in the typed version and a value here. An empty string from `normalize` is null in the typed version; here it is a value exactly when the empty string resolves to a kind. |
| PixKeyJs.SoleCpfNormalizesAlike | src/index.js:38-66 | A trimmed key accepted only as CPF normalises to its digits in both versions. |
| PixKeyJs.CpfAndPhoneFormatsApart | src/index.js:72-81 | Without a hint, a normalised key matching CPF and phone formats to null in the typed version and to the CPF mask here. |
| PixKeyJs.FormattedDualKeyDiverges | src/index.js:72-81 | A punctuated CPF whose digits are also a phone number normalises to its digits in both versions. The typed `format` then gives null, while the untyped one gives the CPF mask. |
| PixKeyJs.EmptyKeyDiverges | src/index.js:69-71 | Where the CPF recognizer accepts only the empty string, the typed `format` of `""` is null and the untyped one is the CPF mask of `""`. |

## Left out

- The recognizers, the phone parser and the masks (js-brasil, uuid-validate,
  libphonenumber-js, email-validator) are not modelled. They are arbitrary
  functions in `Collaborators.Libraries`, so nothing is assumed about which
  strings they accept or what they return. In particular, the CPF and CNPJ
  check digits, the UUID grammar, the e-mail grammar and the phone metadata
  are outside the model.
- Exceptions thrown by those libraries are not modelled. Neither source
  catches them, so they would propagate to the caller; the model has no
  fault path for them. The one exception the model does represent is the TypeError
  that `format` in `src/index.js` raises when `normalize` returns null.
- Hints that are neither strings nor null (numbers, objects) passed to the
  untyped `src/index.js` are not modelled. A hint there is null or a string.
  An explicit `undefined` takes the default `as = null` (src/index.js:38,
  :68), so it is the model's `None`.
- `normalize` and `format` of `src/index.ts` have a `default` branch that
  returns null. It cannot be reached, because the resolved kind is always one
  of the five. It is not modelled.
- The test-suite lemmas (`DualKeyClassification`, `NormalizeDualKey`,
  `NormalizeFormattedCpf`, `FormatDualKey`) do not fix the recognizer answers
  or the expected masks and phone displays of the test suite. The
  recognizers' answers are preconditions, and the mask and display results
  are stated in terms of the library functions.
- PixKeyTs.NormalizeDualKey: it is stated for every digit string accepted
  exactly as CPF and phone, not only for `85966078033`. The literal case
  follows from it.
- PixKeyTs.NormalizeIdempotent: it holds only when the normalised key
  resolves to the same kind again. For phones, the parser must also return
  an E.164 number unchanged. Both conditions depend on the libraries, and
  neither source guarantees them.
- PixKeyTs.CanonicalIsFixed: for phones, it carries the same parser
  condition as `NormalizeIdempotent`.
- `Trim` removes the WhiteSpace and LineTerminator code points of the
  ECMAScript specification (section 22.1.3.32 of ECMA-262, with the Unicode
  space separators listed explicitly). A future Unicode version could add
  space separators, and those are not included.
- The package's build files, its type declaration files and its test runner
  are not part of this model.
