/**
 * `validate`: which of the five kinds the trimmed key satisfies, in priority
 * order. The function `Classify` is the specification; the method `Validate`
 * is the step-by-step list building of the source, proved equal to it.
 */
module Classifier {
  import opened Basics
  import opened JsText
  import opened PixKeyTypes
  import opened Collaborators

  /** The recognizer for `kind` accepts `key`. */
  predicate Accepts(lib: Libraries, kind: PixKeyType, key: string) {
    match kind
    case Cpf => lib.isCpf(key)
    case Cnpj => lib.isCnpj(key)
    case Random => lib.isUuid(key)
    case Phone => lib.isPhone(key)
    case Email => lib.isEmail(key)
  }

  /** The kinds of `kinds`, in their order, whose recognizer accepts `key`. */
  function Select(lib: Libraries, kinds: seq<PixKeyType>, key: string): seq<PixKeyType> {
    if kinds == [] then []
    else (if Accepts(lib, kinds[0], key) then [kinds[0]] else []) + Select(lib, kinds[1..], key)
  }

  lemma {:induction false} SelectMembers(lib: Libraries, kinds: seq<PixKeyType>, key: string)
    ensures forall kind :: kind in Select(lib, kinds, key) <==> kind in kinds && Accepts(lib, kind, key)
  {
    if kinds != [] {
      SelectMembers(lib, kinds[1..], key);
      assert kinds == [kinds[0]] + kinds[1..];
    }
  }

  lemma {:induction false} SelectIsSubsequence(lib: Libraries, kinds: seq<PixKeyType>, key: string)
    ensures IsSubsequence(Select(lib, kinds, key), kinds)
  {
    if kinds != [] {
      SelectIsSubsequence(lib, kinds[1..], key);
      SelectMembers(lib, kinds[1..], key);
      var rest := Select(lib, kinds[1..], key);
      if Accepts(lib, kinds[0], key) {
        assert Select(lib, kinds, key) == [kinds[0]] + rest;
        assert Select(lib, kinds, key)[1..] == rest;
      } else {
        assert Select(lib, kinds, key) == rest;
        assert rest != [] ==> rest[0] != kinds[0] by {
          if rest != [] { assert rest[0] in rest; }
        }
      }
    }
  }

  lemma {:induction false} SelectKeepsOrder(lib: Libraries, kinds: seq<PixKeyType>, key: string)
    requires Ordered(kinds)
    ensures Ordered(Select(lib, kinds, key))
  {
    if kinds != [] {
      SelectKeepsOrder(lib, kinds[1..], key);
      SelectMembers(lib, kinds[1..], key);
      var rest := Select(lib, kinds[1..], key);
      forall j | 0 <= j < |rest| ensures Rank(kinds[0]) < Rank(rest[j]) {
        assert rest[j] in rest;
        var i :| 0 <= i < |kinds[1..]| && kinds[1..][i] == rest[j];
        assert kinds[i + 1] == rest[j];
      }
    }
  }

  /** `validate(pixKey)`: the kinds whose recognizer accepts `pixKey.trim()`, in priority order. */
  function Classify(lib: Libraries, pixKey: string): seq<PixKeyType> {
    Select(lib, Priority, Trim(pixKey))
  }

  /**
   * What `validate` returns: exactly the kinds whose recognizer accepts the
   * trimmed key, each once, in priority order.
   */
  lemma ClassifySpec(lib: Libraries, pixKey: string)
    ensures forall kind :: kind in Classify(lib, pixKey) <==> Accepts(lib, kind, Trim(pixKey))
    ensures Ordered(Classify(lib, pixKey))
    ensures IsSubsequence(Classify(lib, pixKey), Priority)
  {
    PriorityIsOrderedAndComplete();
    SelectMembers(lib, Priority, Trim(pixKey));
    SelectKeepsOrder(lib, Priority, Trim(pixKey));
    SelectIsSubsequence(lib, Priority, Trim(pixKey));
  }

  /** One test of `validate`: `[kind]` when its recognizer accepts `key`, else nothing. */
  function Step(lib: Libraries, kind: PixKeyType, key: string): seq<PixKeyType> {
    if Accepts(lib, kind, key) then [kind] else []
  }

  /** Testing one more kind appends it, or nothing, to what was found so far. */
  lemma {:induction false} SelectSnoc(lib: Libraries, kinds: seq<PixKeyType>, kind: PixKeyType, key: string)
    ensures Select(lib, kinds + [kind], key) == Select(lib, kinds, key) + Step(lib, kind, key)
  {
    if kinds != [] {
      assert (kinds + [kind])[1..] == kinds[1..] + [kind];
      SelectSnoc(lib, kinds[1..], kind, key);
    } else {
      assert [] + [kind] == [kind];
    }
  }

  /** Testing five kinds in turn appends each one, or nothing, in that order. */
  lemma SelectFive(lib: Libraries, kinds: seq<PixKeyType>, key: string)
    requires |kinds| == 5
    ensures Select(lib, kinds, key)
      == Step(lib, kinds[0], key) + Step(lib, kinds[1], key) + Step(lib, kinds[2], key)
         + Step(lib, kinds[3], key) + Step(lib, kinds[4], key)
  {
    var s0, s1, s2, s3, s4 := Step(lib, kinds[0], key), Step(lib, kinds[1], key), Step(lib, kinds[2], key),
      Step(lib, kinds[3], key), Step(lib, kinds[4], key);
    assert Select(lib, kinds[..1], key) == s0 by {
      assert kinds[..1] == [] + [kinds[0]];
      SelectSnoc(lib, [], kinds[0], key);
    }
    assert Select(lib, kinds[..2], key) == s0 + s1 by {
      assert kinds[..2] == kinds[..1] + [kinds[1]];
      SelectSnoc(lib, kinds[..1], kinds[1], key);
    }
    assert Select(lib, kinds[..3], key) == s0 + s1 + s2 by {
      assert kinds[..3] == kinds[..2] + [kinds[2]];
      SelectSnoc(lib, kinds[..2], kinds[2], key);
    }
    assert Select(lib, kinds[..4], key) == s0 + s1 + s2 + s3 by {
      assert kinds[..4] == kinds[..3] + [kinds[3]];
      SelectSnoc(lib, kinds[..3], kinds[3], key);
    }
    assert kinds == kinds[..4] + [kinds[4]];
    SelectSnoc(lib, kinds[..4], kinds[4], key);
  }

  /** `validate` is the concatenation of its five tests, in priority order. */
  lemma ClassifyUnfolded(lib: Libraries, pixKey: string)
    ensures var key := Trim(pixKey);
      Classify(lib, pixKey)
      == Step(lib, Cpf, key) + Step(lib, Cnpj, key) + Step(lib, Random, key) + Step(lib, Phone, key) + Step(lib, Email, key)
  {
    SelectFive(lib, Priority, Trim(pixKey));
  }

  /** `validate` as the source runs it: five independent tests, each appending its kind. */
  method Validate(lib: Libraries, pixKey: string) returns (keyTypes: seq<PixKeyType>)
    ensures keyTypes == Classify(lib, pixKey)
  {
    keyTypes := [];
    var key := Trim(pixKey);
    ClassifyUnfolded(lib, pixKey);
    if lib.isCpf(key) {
      keyTypes := keyTypes + [Cpf];
    }
    assert keyTypes == Step(lib, Cpf, key);
    ghost var found := keyTypes;
    if lib.isCnpj(key) {
      keyTypes := keyTypes + [Cnpj];
    }
    assert keyTypes == found + Step(lib, Cnpj, key);
    found := keyTypes;
    if lib.isUuid(key) {
      keyTypes := keyTypes + [Random];
    }
    assert keyTypes == found + Step(lib, Random, key);
    found := keyTypes;
    if lib.isPhone(key) {
      keyTypes := keyTypes + [Phone];
    }
    assert keyTypes == found + Step(lib, Phone, key);
    found := keyTypes;
    if lib.isEmail(key) {
      keyTypes := keyTypes + [Email];
    }
    assert keyTypes == found + Step(lib, Email, key);
  }

  /** The result of `validate` is the only ordered list of exactly the accepted kinds. */
  lemma ClassifyIsTheOrderedAcceptedList(lib: Libraries, pixKey: string, kinds: seq<PixKeyType>)
    requires Ordered(kinds)
    requires forall kind :: kind in kinds <==> Accepts(lib, kind, Trim(pixKey))
    ensures kinds == Classify(lib, pixKey)
  {
    ClassifySpec(lib, pixKey);
    OrderedByMembers(kinds, Classify(lib, pixKey));
  }

  /** A key exactly one recognizer accepts validates as that single kind. */
  lemma ClassifyExactly(lib: Libraries, pixKey: string, kind: PixKeyType)
    requires forall other :: Accepts(lib, other, Trim(pixKey)) <==> other == kind
    ensures Classify(lib, pixKey) == [kind]
  {
    ClassifyIsTheOrderedAcceptedList(lib, pixKey, [kind]);
  }

  /** `validate` looks only at the trimmed key, so trimming first changes nothing. */
  lemma ClassifyIgnoresTrim(lib: Libraries, pixKey: string)
    ensures Classify(lib, Trim(pixKey)) == Classify(lib, pixKey)
  {
    TrimIdempotent(pixKey);
  }

  /** Filtering the priority list by a key only the CPF and phone recognizers accept. */
  lemma SelectCpfAndPhone(lib: Libraries, key: string)
    requires lib.isCpf(key) && lib.isPhone(key)
    requires !lib.isCnpj(key) && !lib.isUuid(key) && !lib.isEmail(key)
    ensures Select(lib, Priority, key) == [Cpf, Phone]
  {
    SelectFive(lib, Priority, key);
    assert Step(lib, Cpf, key) == [Cpf] && Step(lib, Phone, key) == [Phone];
    assert Step(lib, Cnpj, key) == Step(lib, Random, key) == Step(lib, Email, key) == [];
    assert [Cpf] + [] + [] + [Phone] + [] == [Cpf, Phone];
  }

  /** A trimmed key accepted exactly as CPF and as phone number validates as `['cpf', 'phone']`. */
  lemma CpfAndPhoneClassification(lib: Libraries, key: string)
    requires Trim(key) == key
    requires lib.isCpf(key) && lib.isPhone(key)
    requires !lib.isCnpj(key) && !lib.isUuid(key) && !lib.isEmail(key)
    ensures Classify(lib, key) == [Cpf, Phone]
  {
    assert Classify(lib, key) == Select(lib, Priority, key);
    SelectCpfAndPhone(lib, key);
  }

  /** The overlap of the test suite: a key that is both a valid CPF and a valid phone number. */
  lemma DualKeyClassification(lib: Libraries)
    requires lib.isCpf("85966078033") && lib.isPhone("85966078033")
    requires !lib.isCnpj("85966078033") && !lib.isUuid("85966078033") && !lib.isEmail("85966078033")
    ensures Classify(lib, "85966078033") == [Cpf, Phone]
  {
    DigitStringIsTrimmed("85966078033");
    CpfAndPhoneClassification(lib, "85966078033");
  }
}
