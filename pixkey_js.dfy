/**
 * `normalize` and `format` of the older src/index.js. Its `validate` and its
 * two switches are the same as in src/index.ts (`Classifier.Classify`,
 * `PixKeyTs.Canonical`, `PixKeyTs.Display`); its hint handling differs, and
 * `format` has no guard against a null from `normalize`.
 *
 * The file is untyped, so a hint is whatever the caller passes: `null` (the
 * default) or a string, which need not be one of the five tags.
 */
module PixKeyJs {
  import opened Basics
  import opened JsText
  import opened PixKeyTypes
  import opened Collaborators
  import opened Classifier
  import Ts = PixKeyTs

  /** What a call of `format` does: return a value (a string or null) or throw. */
  datatype Outcome = Returned(value: Option<string>) | TypeError

  /** JavaScript truthiness of a hint: null and the empty string are falsy. */
  predicate Truthy(hint: Option<string>) {
    hint.Some? && hint.value != ""
  }

  /** The kind a hint string names, if any. */
  function AsKind(hint: Option<string>): (r: Option<PixKeyType>)
    ensures r.Some? ==> hint.Some? && Tag(r.value) == hint.value
    ensures hint.Some? && (exists kind :: Tag(kind) == hint.value) ==> r.Some?
  {
    if hint.Some? then ParseTag(hint.value) else None
  }

  /** The tag of a typed hint, as a caller of the typed API would pass it. */
  function TagOf(hint: Option<PixKeyType>): (r: Option<string>)
    ensures AsKind(r) == hint
  {
    match hint
    case None => None
    case Some(kind) => Some(Tag(kind))
  }

  /** `useAs.includes(as)` followed by `useAs = as`: the matched kind whose tag the hint is. */
  function HintedKind(matches: seq<PixKeyType>, hint: Option<string>): (r: Option<PixKeyType>)
    ensures r.Some? <==> hint.Some? && exists kind :: kind in matches && Tag(kind) == hint.value
    ensures r.Some? ==> r.value in matches && Tag(r.value) == hint.value
  {
    match AsKind(hint)
    case None => None
    case Some(kind) => if kind in matches then Some(kind) else None
  }

  /**
   * The hint rule of `normalize`: a single match wins whatever the hint;
   * otherwise the result is the match the hint names, if any.
   */
  function ResolveForNormalize(matches: seq<PixKeyType>, hint: Option<string>): (r: Option<PixKeyType>)
    ensures r.Some? ==> r.value in matches
    ensures |matches| == 1 ==> r == Some(matches[0])
    ensures |matches| != 1 ==> r == HintedKind(matches, hint)
  {
    if |matches| > 1 then HintedKind(matches, hint)
    else if |matches| == 0 then None
    else Some(matches[0])
  }

  /** A hint string resolves as the kind it names would in src/index.ts. */
  lemma ResolveForNormalizeAgrees(matches: seq<PixKeyType>, hint: Option<string>)
    ensures ResolveForNormalize(matches, hint) == Ts.Resolve(matches, AsKind(hint))
  {
  }

  /**
   * The hint rule of `format`: a single match wins whatever the hint; an
   * ambiguous key takes the match a truthy hint names, if any, and its first
   * match when the hint is falsy.
   */
  function ResolveForFormat(matches: seq<PixKeyType>, hint: Option<string>): (r: Option<PixKeyType>)
    ensures r.Some? ==> r.value in matches
    ensures |matches| == 0 ==> r == None
    ensures |matches| == 1 ==> r == Some(matches[0])
    ensures |matches| > 1 && !Truthy(hint) ==> r == Some(matches[0])
    ensures |matches| > 1 && Truthy(hint) ==> r == HintedKind(matches, hint)
  {
    if |matches| > 1 then
      if Truthy(hint) then HintedKind(matches, hint) else Some(matches[0])
    else if |matches| == 0 then None
    else Some(matches[0])
  }

  /** `normalize(pixKey, as)`. */
  function Normalize(lib: Libraries, pixKey: string, hint: Option<string>): (r: Option<string>)
    ensures r.Some? ==> Classify(lib, pixKey) != []
    ensures |Classify(lib, pixKey)| == 1 ==> r.Some?
  {
    var key := Trim(pixKey);
    assert Classify(lib, key) == Classify(lib, pixKey) by { ClassifyIgnoresTrim(lib, pixKey); }
    match ResolveForNormalize(Classify(lib, key), hint)
    case None => None
    case Some(kind) => Some(Ts.Canonical(lib, kind, key))
  }

  /** `format(pixKey, as)`: `validate(null)` throws, since `null.trim` is not a function. */
  function Format(lib: Libraries, pixKey: string, hint: Option<string>): (r: Outcome)
    ensures r.TypeError? <==> Normalize(lib, pixKey, hint).None?
  {
    match Normalize(lib, pixKey, hint)
    case None => TypeError
    case Some(normalized) =>
      match ResolveForFormat(Classify(lib, normalized), hint)
      case None => Returned(None)
      case Some(kind) => Returned(Some(Ts.Display(lib, kind, normalized)))
  }

  /** What `normalize` does once the kind is resolved: the canonical form of the trimmed key. */
  lemma NormalizeResolved(lib: Libraries, pixKey: string, hint: Option<string>)
    ensures Normalize(lib, pixKey, hint)
         == match ResolveForNormalize(Classify(lib, pixKey), hint)
            case None => None
            case Some(kind) => Some(Ts.Canonical(lib, kind, Trim(pixKey)))
  {
    ClassifyIgnoresTrim(lib, pixKey);
  }

  /**
   * The two `normalize` functions agree on every key and every hint: a hint
   * string acts as the kind it names, and a string naming no kind acts as null.
   */
  lemma NormalizeAgreesWithTs(lib: Libraries, pixKey: string, hint: Option<string>)
    ensures Normalize(lib, pixKey, hint) == Ts.Normalize(lib, pixKey, AsKind(hint))
  {
    NormalizeResolved(lib, pixKey, hint);
    Ts.NormalizeResolved(lib, pixKey, AsKind(hint));
    ResolveForNormalizeAgrees(Classify(lib, pixKey), hint);
  }

  /** Hence a typed call of the untyped `normalize` gives what the typed one gives. */
  lemma NormalizeAgreesOnTypedHints(lib: Libraries, pixKey: string, hint: Option<PixKeyType>)
    ensures Normalize(lib, pixKey, TagOf(hint)) == Ts.Normalize(lib, pixKey, hint)
  {
    NormalizeAgreesWithTs(lib, pixKey, TagOf(hint));
  }

  /**
   * An ambiguous key is normalized only when `useAs.includes(as)`: the hint is
   * the tag of one of its matches. The default hint, null, never is.
   */
  lemma NormalizeAmbiguousNeedsHint(lib: Libraries, pixKey: string, hint: Option<string>)
    requires |Classify(lib, pixKey)| > 1
    ensures Normalize(lib, pixKey, hint).Some?
        <==> hint.Some? && exists kind :: kind in Classify(lib, pixKey) && Tag(kind) == hint.value
    ensures Normalize(lib, pixKey, None) == None
  {
    var matches := Classify(lib, pixKey);
    assert Normalize(lib, pixKey, hint)
        == match HintedKind(matches, hint)
           case None => None
           case Some(kind) => Some(Ts.Canonical(lib, kind, Trim(pixKey))) by {
      NormalizeResolved(lib, pixKey, hint);
    }
    assert Normalize(lib, pixKey, None) == None by {
      NormalizeResolved(lib, pixKey, None);
      assert HintedKind(matches, None) == None;
    }
  }

  /** No match gives null; a single match is used whatever the hint. */
  lemma NormalizeZeroOrOneMatch(lib: Libraries, pixKey: string, hint: Option<string>)
    ensures Classify(lib, pixKey) == [] ==> Normalize(lib, pixKey, hint) == None
    ensures |Classify(lib, pixKey)| == 1
        ==> Normalize(lib, pixKey, hint) == Some(Ts.Canonical(lib, Classify(lib, pixKey)[0], Trim(pixKey)))
  {
    NormalizeResolved(lib, pixKey, hint);
    var matches := Classify(lib, pixKey);
    assert matches == [] ==> ResolveForNormalize(matches, hint) == None;
    assert |matches| == 1 ==> ResolveForNormalize(matches, hint) == Some(matches[0]);
  }

  /** What `format` does once `normalize` gave a key: re-validate it, resolve, display. */
  lemma FormatResolved(lib: Libraries, pixKey: string, hint: Option<string>, normalized: string)
    requires Normalize(lib, pixKey, hint) == Some(normalized)
    ensures Format(lib, pixKey, hint)
         == match ResolveForFormat(Classify(lib, normalized), hint)
            case None => Returned(None)
            case Some(kind) => Returned(Some(Ts.Display(lib, kind, normalized)))
  {
  }

  /**
   * Once `normalize` succeeded, an ambiguous normalized key without a truthy
   * hint is formatted as its first match, in priority order.
   */
  lemma FormatFallsBackToFirstMatch(lib: Libraries, pixKey: string, hint: Option<string>, normalized: string)
    requires Normalize(lib, pixKey, hint) == Some(normalized)
    requires |Classify(lib, normalized)| > 1 && !Truthy(hint)
    ensures Format(lib, pixKey, hint) == Returned(Some(Ts.Display(lib, Classify(lib, normalized)[0], normalized)))
    ensures forall kind :: kind in Classify(lib, normalized) ==> Rank(Classify(lib, normalized)[0]) <= Rank(kind)
  {
    FormatResolved(lib, pixKey, hint, normalized);
    assert Ordered(Classify(lib, normalized)) by { ClassifySpec(lib, normalized); }
    OrderedHeadComesFirst(Classify(lib, normalized));
  }

  /** A truthy hint that names none of the normalized key's several matches gives null. */
  lemma FormatRejectsForeignHint(lib: Libraries, pixKey: string, hint: Option<string>, normalized: string)
    requires Normalize(lib, pixKey, hint) == Some(normalized)
    requires |Classify(lib, normalized)| > 1 && Truthy(hint)
    requires forall kind :: kind in Classify(lib, normalized) ==> Tag(kind) != hint.value
    ensures Format(lib, pixKey, hint) == Returned(None)
  {
    var matches := Classify(lib, normalized);
    assert ResolveForFormat(matches, hint) == None by {
      assert HintedKind(matches, hint) == None;
    }
    FormatResolved(lib, pixKey, hint, normalized);
  }

  /**
   * Where src/index.ts refuses to guess, this `format` agrees with it: when the
   * normalized key is non-empty and either has at most one match or comes with
   * a truthy hint, both give the same value.
   */
  lemma FormatAgreesWithTs(lib: Libraries, pixKey: string, hint: Option<string>, normalized: string)
    requires Normalize(lib, pixKey, hint) == Some(normalized) && normalized != ""
    requires |Classify(lib, normalized)| <= 1 || Truthy(hint)
    ensures Format(lib, pixKey, hint) == Returned(Ts.Format(lib, pixKey, AsKind(hint)))
  {
    NormalizeAgreesWithTs(lib, pixKey, hint);
    var matches := Classify(lib, normalized);
    assert ResolveForFormat(matches, hint) == Ts.Resolve(matches, AsKind(hint));
  }

  /**
   * Where the two differ: an ambiguous normalized key without a truthy hint is
   * null in src/index.ts and its first match here; a null from `normalize` is
   * null there and a thrown TypeError here; an empty string from `normalize` is
   * null there, while here it is validated and formatted like any other key.
   */
  lemma FormatDivergesFromTs(lib: Libraries, pixKey: string, hint: Option<string>)
    ensures Normalize(lib, pixKey, hint).None?
        ==> Ts.Format(lib, pixKey, AsKind(hint)) == None && Format(lib, pixKey, hint) == TypeError
    ensures Normalize(lib, pixKey, hint).Some? && |Classify(lib, Normalize(lib, pixKey, hint).value)| > 1 && !Truthy(hint)
        ==> Ts.Format(lib, pixKey, AsKind(hint)) == None
            && Format(lib, pixKey, hint).Returned? && Format(lib, pixKey, hint).value.Some?
    ensures Normalize(lib, pixKey, hint) == Some("")
        ==> Ts.Format(lib, pixKey, AsKind(hint)) == None
            && Format(lib, pixKey, hint).Returned?
            && (Format(lib, pixKey, hint).value.Some? <==> ResolveForFormat(Classify(lib, ""), hint).Some?)
  {
    var n := Normalize(lib, pixKey, hint);
    assert n == Ts.Normalize(lib, pixKey, AsKind(hint)) by { NormalizeAgreesWithTs(lib, pixKey, hint); }
    if n.Some? {
      var matches := Classify(lib, n.value);
      assert Format(lib, pixKey, hint)
          == match ResolveForFormat(matches, hint)
             case None => Returned(None)
             case Some(kind) => Returned(Some(Ts.Display(lib, kind, n.value))) by {
        FormatResolved(lib, pixKey, hint, n.value);
      }
      if |matches| > 1 && !Truthy(hint) {
        assert AsKind(hint) == None;
        assert Ts.Resolve(matches, None) == None;
      }
    }
  }

  /** A key accepted only as CPF normalizes to its digits in both files. */
  lemma SoleCpfNormalizesAlike(lib: Libraries, formatted: string, digits: string)
    requires Trim(formatted) == formatted && StripNonDigits(formatted) == digits
    requires lib.isCpf(formatted)
    requires !lib.isCnpj(formatted) && !lib.isUuid(formatted) && !lib.isPhone(formatted) && !lib.isEmail(formatted)
    ensures Ts.Normalize(lib, formatted, None) == Normalize(lib, formatted, None) == Some(digits)
  {
    assert Ts.Normalize(lib, formatted, None) == Some(digits) by { Ts.NormalizeSoleCpf(lib, formatted); }
    NormalizeAgreesWithTs(lib, formatted, None);
  }

  /** Without a hint, a normalized key matching CPF and phone is null in src/index.ts and masked here. */
  lemma CpfAndPhoneFormatsApart(lib: Libraries, pixKey: string, digits: string)
    requires Ts.Normalize(lib, pixKey, None) == Normalize(lib, pixKey, None) == Some(digits)
    requires Classify(lib, digits) == [Cpf, Phone]
    ensures Ts.Format(lib, pixKey, None) == None
    ensures Format(lib, pixKey, None) == Returned(Some(lib.maskCpf(digits)))
  {
    assert Ts.Resolve([Cpf, Phone], None) == None;
    FormatResolved(lib, pixKey, None, digits);
  }

  /**
   * A concrete divergence: a formatted CPF whose digits also form a valid phone
   * number. Both files normalize it to its digits; src/index.ts then formats it
   * to null, this file to the CPF mask.
   */
  lemma FormattedDualKeyDiverges(lib: Libraries, formatted: string, digits: string)
    requires Trim(formatted) == formatted && StripNonDigits(formatted) == digits
    requires lib.isCpf(formatted)
    requires !lib.isCnpj(formatted) && !lib.isUuid(formatted) && !lib.isPhone(formatted) && !lib.isEmail(formatted)
    requires lib.isCpf(digits) && lib.isPhone(digits)
    requires !lib.isCnpj(digits) && !lib.isUuid(digits) && !lib.isEmail(digits)
    ensures Ts.Normalize(lib, formatted, None) == Normalize(lib, formatted, None) == Some(digits)
    ensures Ts.Format(lib, formatted, None) == None
    ensures Format(lib, formatted, None) == Returned(Some(lib.maskCpf(digits)))
  {
    SoleCpfNormalizesAlike(lib, formatted, digits);
    assert Classify(lib, digits) == [Cpf, Phone] by {
      DigitStringIsTrimmed(digits);
      CpfAndPhoneClassification(lib, digits);
    }
    CpfAndPhoneFormatsApart(lib, formatted, digits);
  }

  /**
   * The empty-key divergence: where the CPF recognizer accepts the empty
   * string and no other recognizer does, src/index.ts formats `""` to null
   * and this file to the CPF mask of `""`.
   */
  lemma EmptyKeyDiverges(lib: Libraries)
    requires lib.isCpf("")
    requires !lib.isCnpj("") && !lib.isUuid("") && !lib.isPhone("") && !lib.isEmail("")
    ensures Ts.Normalize(lib, "", None) == Normalize(lib, "", None) == Some("")
    ensures Ts.Format(lib, "", None) == None
    ensures Format(lib, "", None) == Returned(Some(lib.maskCpf("")))
  {
    assert Trim("") == "" by { TrimKeepsTrimmed(""); }
    ClassifyExactly(lib, "", Cpf);
    Ts.NormalizeResolved(lib, "", None);
    NormalizeAgreesWithTs(lib, "", None);
  }
}
