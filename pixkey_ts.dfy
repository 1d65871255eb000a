/**
 * `normalize` and `format` of src/index.ts: resolve the match list of
 * `validate` to one kind (using the caller's hint only when the key is
 * ambiguous), then rewrite the key into that kind's canonical or display form.
 */
module PixKeyTs {
  import opened Basics
  import opened JsText
  import opened PixKeyTypes
  import opened Collaborators
  import opened Classifier

  /**
   * The hint rule shared by `normalize` and `format`: a single match wins
   * whatever the hint; otherwise the hint is used exactly when it is one of the
   * matches, and the result is null when it is absent or not among them.
   */
  function Resolve(matches: seq<PixKeyType>, hint: Option<PixKeyType>): (r: Option<PixKeyType>)
    ensures r.Some? ==> r.value in matches
    ensures |matches| == 1 ==> r == Some(matches[0])
    ensures |matches| != 1 ==> (r.Some? <==> hint.Some? && hint.value in matches)
    ensures |matches| != 1 && r.Some? ==> r == hint
  {
    if |matches| > 1 then
      if hint.Some? && hint.value in matches then hint else None
    else if |matches| == 0 then None
    else Some(matches[0])
  }

  /** The switch of `normalize`: the canonical form of an already trimmed key of the given kind. */
  function Canonical(lib: Libraries, kind: PixKeyType, key: string): (r: string)
    ensures kind == Cpf || kind == Cnpj ==> AllDigits(r) && |r| <= |key|
    ensures kind == Random || kind == Email ==> r == key
  {
    match kind
    case Cpf | Cnpj => StripNonDigits(key)
    case Random | Email => key
    case Phone => lib.parsePhone(key).number
  }

  /** The parser placed the number in Brazil, the region it was parsed against. */
  predicate InBrazil(phone: PhoneNumber) {
    phone.country == Some("BR")
  }

  /** The switch of `format`: the display form of a normalized key of the given kind. */
  function Display(lib: Libraries, kind: PixKeyType, normalized: string): (r: string)
    ensures kind == Random || kind == Email ==> r == normalized
  {
    match kind
    case Cpf => lib.maskCpf(normalized)
    case Cnpj => lib.maskCnpj(normalized)
    case Random | Email => normalized
    case Phone =>
      var phone := lib.parsePhone(normalized);
      if InBrazil(phone) then phone.national else phone.international
  }

  /** `normalize(pixKey, as)`. */
  function Normalize(lib: Libraries, pixKey: string, hint: Option<PixKeyType>): (r: Option<string>)
    ensures r.Some? ==> Classify(lib, pixKey) != []
    ensures r.Some? && |Classify(lib, pixKey)| > 1 ==> hint.Some? && hint.value in Classify(lib, pixKey)
  {
    var key := Trim(pixKey);
    ClassifyIgnoresTrim(lib, pixKey);
    match Resolve(Classify(lib, key), hint)
    case None => None
    case Some(kind) => Some(Canonical(lib, kind, key))
  }

  /** `format(pixKey, as)`. */
  function Format(lib: Libraries, pixKey: string, hint: Option<PixKeyType>): (r: Option<string>)
    ensures r.Some? ==> Normalize(lib, pixKey, hint).Some? && Normalize(lib, pixKey, hint).value != ""
    ensures r.Some? ==> Classify(lib, Normalize(lib, pixKey, hint).value) != []
  {
    match Normalize(lib, pixKey, hint)
    case None => None
    case Some(normalized) =>
      if normalized == "" then None
      else match Resolve(Classify(lib, normalized), hint)
        case None => None
        case Some(kind) => Some(Display(lib, kind, normalized))
  }

  /** What `normalize` does once the kind is resolved: the canonical form of the trimmed key. */
  lemma NormalizeResolved(lib: Libraries, pixKey: string, hint: Option<PixKeyType>)
    ensures Normalize(lib, pixKey, hint)
         == match Resolve(Classify(lib, pixKey), hint)
            case None => None
            case Some(kind) => Some(Canonical(lib, kind, Trim(pixKey)))
  {
    ClassifyIgnoresTrim(lib, pixKey);
  }

  /** A key no recognizer accepts normalizes to null, whatever the hint. */
  lemma NormalizeRejectsUnmatched(lib: Libraries, pixKey: string, hint: Option<PixKeyType>)
    requires forall kind :: !Accepts(lib, kind, Trim(pixKey))
    ensures Normalize(lib, pixKey, hint) == None
  {
    NormalizeResolved(lib, pixKey, hint);
    ClassifySpec(lib, pixKey);
    assert Classify(lib, pixKey) == [] by {
      if Classify(lib, pixKey) != [] {
        HeadIsMember(Classify(lib, pixKey));
        assert false;
      }
    }
  }

  /**
   * An ambiguous key is normalized only under a hint naming one of its
   * matches, and then as that kind.
   */
  lemma NormalizeAmbiguousNeedsHint(lib: Libraries, pixKey: string, hint: Option<PixKeyType>)
    requires |Classify(lib, pixKey)| > 1
    ensures Normalize(lib, pixKey, hint).Some? <==> hint.Some? && Accepts(lib, hint.value, Trim(pixKey))
    ensures Normalize(lib, pixKey, hint).Some? ==> Normalize(lib, pixKey, hint) == Some(Canonical(lib, hint.value, Trim(pixKey)))
  {
    NormalizeResolved(lib, pixKey, hint);
    ClassifySpec(lib, pixKey);
  }

  /** With exactly one match the hint is ignored: any two hints give the same result. */
  lemma NormalizeSingleMatchIgnoresHint(lib: Libraries, pixKey: string, hint: Option<PixKeyType>, other: Option<PixKeyType>)
    requires |Classify(lib, pixKey)| == 1
    ensures Normalize(lib, pixKey, hint) == Normalize(lib, pixKey, other) == Some(Canonical(lib, Classify(lib, pixKey)[0], Trim(pixKey)))
  {
    NormalizeResolved(lib, pixKey, hint);
    NormalizeResolved(lib, pixKey, other);
  }

  /** A key resolved as CPF or CNPJ normalizes to exactly the decimal digits of the trimmed key. */
  lemma NormalizeNationalIdToDigits(lib: Libraries, pixKey: string, hint: Option<PixKeyType>)
    requires Resolve(Classify(lib, pixKey), hint) == Some(Cpf) || Resolve(Classify(lib, pixKey), hint) == Some(Cnpj)
    ensures Normalize(lib, pixKey, hint).Some?
    ensures DigitsOf(Normalize(lib, pixKey, hint).value, Trim(pixKey))
    ensures StripNonDigits(Normalize(lib, pixKey, hint).value) == Normalize(lib, pixKey, hint).value
  {
    NormalizeResolved(lib, pixKey, hint);
    StripKeepsDigitsInOrder(Trim(pixKey));
    StripIdempotent(Trim(pixKey));
  }

  /** A key resolved as a random key or an email normalizes to the trimmed key itself. */
  lemma NormalizeKeepsRandomAndEmail(lib: Libraries, pixKey: string, hint: Option<PixKeyType>)
    requires Resolve(Classify(lib, pixKey), hint) == Some(Random) || Resolve(Classify(lib, pixKey), hint) == Some(Email)
    ensures Normalize(lib, pixKey, hint) == Some(Trim(pixKey))
  {
    NormalizeResolved(lib, pixKey, hint);
    var kind := Resolve(Classify(lib, pixKey), hint).value;
    assert Canonical(lib, kind, Trim(pixKey)) == Trim(pixKey);
  }

  /** A key resolved as a phone number normalizes to the parser's E.164 number. */
  lemma NormalizePhoneToE164(lib: Libraries, pixKey: string, hint: Option<PixKeyType>)
    requires Resolve(Classify(lib, pixKey), hint) == Some(Phone)
    ensures Normalize(lib, pixKey, hint) == Some(lib.parsePhone(Trim(pixKey)).number)
  {
    NormalizeResolved(lib, pixKey, hint);
  }

  /** The digits of a key survive a second trim and strip unchanged. */
  lemma StripOfTrimmedDigits(key: string)
    ensures StripNonDigits(Trim(StripNonDigits(key))) == StripNonDigits(key)
  {
    var n := StripNonDigits(key);
    assert Trim(n) == n by { DigitStringIsTrimmed(n); }
    StripFixesExactlyDigitStrings(n);
  }

  /**
   * A canonical form is its own canonical form once trimmed: digits stay digits,
   * a trimmed key stays itself, and a phone number stays put when the parser
   * returns its E.164 form unchanged.
   */
  lemma CanonicalIsFixed(lib: Libraries, kind: PixKeyType, key: string)
    requires Trim(key) == key
    requires kind == Phone ==> lib.parsePhone(Trim(Canonical(lib, kind, key))).number == Canonical(lib, kind, key)
    ensures Canonical(lib, kind, Trim(Canonical(lib, kind, key))) == Canonical(lib, kind, key)
  {
    var n := Canonical(lib, kind, key);
    if kind == Cpf || kind == Cnpj {
      StripOfTrimmedDigits(key);
    } else if kind == Random || kind == Email {
      assert n == key;
    } else {
      assert Canonical(lib, kind, Trim(n)) == lib.parsePhone(Trim(n)).number;
    }
  }

  /**
   * Normalizing a canonical form again gives it back, provided the canonical
   * form resolves to the same kind (and, for a phone number, the parser returns
   * an E.164 number unchanged).
   */
  lemma NormalizeIdempotent(lib: Libraries, pixKey: string, hint: Option<PixKeyType>, kind: PixKeyType)
    requires Resolve(Classify(lib, pixKey), hint) == Some(kind)
    requires Resolve(Classify(lib, Canonical(lib, kind, Trim(pixKey))), hint) == Some(kind)
    requires kind == Phone ==> lib.parsePhone(Trim(Canonical(lib, kind, Trim(pixKey)))).number == Canonical(lib, kind, Trim(pixKey))
    ensures Normalize(lib, pixKey, hint) == Some(Canonical(lib, kind, Trim(pixKey)))
    ensures Normalize(lib, Normalize(lib, pixKey, hint).value, hint) == Normalize(lib, pixKey, hint)
  {
    var n := Canonical(lib, kind, Trim(pixKey));
    assert Normalize(lib, pixKey, hint) == Some(n) by { NormalizeResolved(lib, pixKey, hint); }
    assert Normalize(lib, n, hint) == Some(Canonical(lib, kind, Trim(n))) by { NormalizeResolved(lib, n, hint); }
    assert Canonical(lib, kind, Trim(n)) == n by {
      TrimIdempotent(pixKey);
      CanonicalIsFixed(lib, kind, Trim(pixKey));
    }
  }

  /**
   * A digit string accepted both as CPF and as phone number, like the test
   * suite's dual key: no hint gives null, a hint picks the kind.
   */
  lemma NormalizeDualKey(lib: Libraries, key: string)
    requires AllDigits(key)
    requires lib.isCpf(key) && lib.isPhone(key)
    requires !lib.isCnpj(key) && !lib.isUuid(key) && !lib.isEmail(key)
    ensures Normalize(lib, key, None) == None
    ensures Normalize(lib, key, Some(Cpf)) == Some(key)
    ensures Normalize(lib, key, Some(Phone)) == Some(lib.parsePhone(key).number)
  {
    assert Trim(key) == key by { DigitStringIsTrimmed(key); }
    assert StripNonDigits(key) == key by { StripFixesExactlyDigitStrings(key); }
    var matches := Classify(lib, key);
    assert matches == [Cpf, Phone] by { CpfAndPhoneClassification(lib, key); }
    assert Normalize(lib, key, None) == None by {
      NormalizeResolved(lib, key, None);
      assert Resolve(matches, None) == None;
    }
    assert Normalize(lib, key, Some(Cpf)) == Some(Canonical(lib, Cpf, key)) by {
      NormalizeResolved(lib, key, Some(Cpf));
      assert Resolve(matches, Some(Cpf)) == Some(Cpf);
    }
    assert Normalize(lib, key, Some(Phone)) == Some(Canonical(lib, Phone, key)) by {
      NormalizeResolved(lib, key, Some(Phone));
      assert Resolve(matches, Some(Phone)) == Some(Phone);
    }
  }

  /** A trimmed key accepted only as CPF normalizes, without a hint, to its digits. */
  lemma NormalizeSoleCpf(lib: Libraries, key: string)
    requires Trim(key) == key
    requires lib.isCpf(key)
    requires !lib.isCnpj(key) && !lib.isUuid(key) && !lib.isPhone(key) && !lib.isEmail(key)
    ensures Normalize(lib, key, None) == Some(StripNonDigits(key))
  {
    ClassifyExactly(lib, key, Cpf);
    NormalizeResolved(lib, key, None);
  }

  /** The test suite's formatted CPF loses its punctuation. */
  lemma NormalizeFormattedCpf(lib: Libraries)
    requires lib.isCpf("036.376.490-98")
    requires !lib.isCnpj("036.376.490-98") && !lib.isUuid("036.376.490-98")
    requires !lib.isPhone("036.376.490-98") && !lib.isEmail("036.376.490-98")
    ensures Normalize(lib, "036.376.490-98", None) == Some("03637649098")
  {
    TrimKeepsTrimmed("036.376.490-98");
    FormattedCpfStrip();
    NormalizeSoleCpf(lib, "036.376.490-98");
  }

  /** A digit group followed by a separator keeps the group and drops the separator. */
  lemma StripGroupThenSeparator(group: string, separator: char, rest: string)
    requires AllDigits(group) && !IsDigit(separator)
    ensures StripNonDigits(group + ([separator] + rest)) == group + StripNonDigits(rest)
  {
    var tail := [separator] + rest;
    assert StripNonDigits(tail) == StripNonDigits(rest) by {
      assert tail[0] == separator && tail[1..] == rest;
    }
    assert StripNonDigits(group) == group by { StripFixesExactlyDigitStrings(group); }
    StripDistributes(group, tail);
  }

  lemma FormattedCpfStrip()
    ensures StripNonDigits("036.376.490-98") == "03637649098"
  {
    assert "036.376.490-98" == "036" + (['.'] + ("376" + (['.'] + ("490" + (['-'] + "98")))));
    assert "03637649098" == "036" + ("376" + ("490" + "98"));
    StripFixesExactlyDigitStrings("98");
    StripGroupThenSeparator("490", '-', "98");
    StripGroupThenSeparator("376", '.', "490" + (['-'] + "98"));
    StripGroupThenSeparator("036", '.', "376" + (['.'] + ("490" + (['-'] + "98"))));
  }

  /** What `format` does once `normalize` gave a non-empty key: re-validate it, resolve, display. */
  lemma FormatResolved(lib: Libraries, pixKey: string, hint: Option<PixKeyType>, normalized: string)
    requires Normalize(lib, pixKey, hint) == Some(normalized) && normalized != ""
    ensures Format(lib, pixKey, hint)
         == match Resolve(Classify(lib, normalized), hint)
            case None => None
            case Some(kind) => Some(Display(lib, kind, normalized))
  {
  }

  /** `format` gives null whenever `normalize` gives null or the empty string. */
  lemma FormatRejectsFailedNormalize(lib: Libraries, pixKey: string, hint: Option<PixKeyType>)
    requires Normalize(lib, pixKey, hint) == None || Normalize(lib, pixKey, hint) == Some("")
    ensures Format(lib, pixKey, hint) == None
  {
  }

  /**
   * `format` re-validates the normalized key and applies the same hint rule:
   * it gives null exactly when the normalized key matches nothing, or matches
   * several kinds and the hint is absent or not among them.
   */
  lemma FormatResolvesAgain(lib: Libraries, pixKey: string, hint: Option<PixKeyType>, normalized: string)
    requires Normalize(lib, pixKey, hint) == Some(normalized) && normalized != ""
    ensures var matches := Classify(lib, normalized);
      Format(lib, pixKey, hint).None?
      <==> |matches| == 0 || (|matches| > 1 && !(hint.Some? && hint.value in matches))
  {
  }

  /** Re-validated as CPF or CNPJ, the normalized key goes through the matching mask. */
  lemma FormatMasksNationalIds(lib: Libraries, pixKey: string, hint: Option<PixKeyType>, normalized: string)
    requires Normalize(lib, pixKey, hint) == Some(normalized) && normalized != ""
    ensures Resolve(Classify(lib, normalized), hint) == Some(Cpf) ==> Format(lib, pixKey, hint) == Some(lib.maskCpf(normalized))
    ensures Resolve(Classify(lib, normalized), hint) == Some(Cnpj) ==> Format(lib, pixKey, hint) == Some(lib.maskCnpj(normalized))
  {
    FormatResolved(lib, pixKey, hint, normalized);
  }

  /**
   * A non-empty key resolved as a random key or an email is displayed as its
   * trimmed self: `format` agrees with `normalize` on it.
   */
  lemma FormatKeepsRandomAndEmail(lib: Libraries, pixKey: string, hint: Option<PixKeyType>, kind: PixKeyType)
    requires kind == Random || kind == Email
    requires Resolve(Classify(lib, pixKey), hint) == Some(kind)
    requires Trim(pixKey) != ""
    ensures Format(lib, pixKey, hint) == Normalize(lib, pixKey, hint) == Some(Trim(pixKey))
  {
    assert Normalize(lib, pixKey, hint) == Some(Trim(pixKey)) by { NormalizeKeepsRandomAndEmail(lib, pixKey, hint); }
    assert Classify(lib, Trim(pixKey)) == Classify(lib, pixKey) by { ClassifyIgnoresTrim(lib, pixKey); }
    FormatResolved(lib, pixKey, hint, Trim(pixKey));
  }

  lemma DisplayPhoneByCountry(lib: Libraries, normalized: string)
    ensures InBrazil(lib.parsePhone(normalized)) ==> Display(lib, Phone, normalized) == lib.parsePhone(normalized).national
    ensures !InBrazil(lib.parsePhone(normalized)) ==> Display(lib, Phone, normalized) == lib.parsePhone(normalized).international
  {
  }

  /** A phone number is displayed in national notation exactly when its country is BR. */
  lemma FormatPhoneByCountry(lib: Libraries, pixKey: string, hint: Option<PixKeyType>, normalized: string)
    requires Normalize(lib, pixKey, hint) == Some(normalized) && normalized != ""
    requires Resolve(Classify(lib, normalized), hint) == Some(Phone)
    ensures InBrazil(lib.parsePhone(normalized)) ==> Format(lib, pixKey, hint) == Some(lib.parsePhone(normalized).national)
    ensures !InBrazil(lib.parsePhone(normalized)) ==> Format(lib, pixKey, hint) == Some(lib.parsePhone(normalized).international)
  {
    FormatResolved(lib, pixKey, hint, normalized);
    DisplayPhoneByCountry(lib, normalized);
  }

  /**
   * The dual key of the test suite, formatted: without a hint it is null; as
   * CPF it goes through the CPF mask; as phone number it is re-validated in
   * E.164 form, where only the phone recognizer accepts it, and displayed by
   * country.
   */
  lemma FormatDualKey(lib: Libraries, key: string)
    requires AllDigits(key) && key != ""
    requires lib.isCpf(key) && lib.isPhone(key)
    requires !lib.isCnpj(key) && !lib.isUuid(key) && !lib.isEmail(key)
    requires var e164 := lib.parsePhone(key).number;
      e164 != "" && Trim(e164) == e164 && lib.isPhone(e164)
      && !lib.isCpf(e164) && !lib.isCnpj(e164) && !lib.isUuid(e164) && !lib.isEmail(e164)
    ensures Format(lib, key, None) == None
    ensures Format(lib, key, Some(Cpf)) == Some(lib.maskCpf(key))
    ensures Format(lib, key, Some(Phone)) == Some(Display(lib, Phone, lib.parsePhone(key).number))
  {
    var e164 := lib.parsePhone(key).number;
    NormalizeDualKey(lib, key);
    assert Classify(lib, key) == [Cpf, Phone] by {
      DigitStringIsTrimmed(key);
      CpfAndPhoneClassification(lib, key);
    }
    assert Format(lib, key, Some(Cpf)) == Some(lib.maskCpf(key)) by {
      FormatResolved(lib, key, Some(Cpf), key);
    }
    assert Classify(lib, e164) == [Phone] by {
      ClassifyExactly(lib, e164, Phone);
    }
    assert Format(lib, key, Some(Phone)) == Some(Display(lib, Phone, e164)) by {
      FormatResolved(lib, key, Some(Phone), e164);
    }
  }
}
