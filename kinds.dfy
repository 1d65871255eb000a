/** The five PIX key kinds, their exported tags and their fixed priority order. */
module PixKeyTypes {
  import opened Basics

  /** `PixKeyType`: the union of the five `PIX_KEY_*` constants. */
  datatype PixKeyType = Cpf | Cnpj | Random | Phone | Email

  /** The string value of each `PIX_KEY_*` constant. */
  function Tag(kind: PixKeyType): string {
    match kind
    case Cpf => "cpf"
    case Cnpj => "cnpj"
    case Random => "random"
    case Phone => "phone"
    case Email => "email"
  }

  /** The kind whose tag is `s`, if any: the five tags are distinct. */
  function ParseTag(s: string): (r: Option<PixKeyType>)
    ensures forall kind :: r == Some(kind) <==> Tag(kind) == s
  {
    if s == "cpf" then Some(Cpf)
    else if s == "cnpj" then Some(Cnpj)
    else if s == "random" then Some(Random)
    else if s == "phone" then Some(Phone)
    else if s == "email" then Some(Email)
    else None
  }

  /** The order in which `validate` consults the recognizers. */
  const Priority: seq<PixKeyType> := [Cpf, Cnpj, Random, Phone, Email]

  /** Position of a kind in `Priority`. */
  function Rank(kind: PixKeyType): (n: nat)
    ensures n < |Priority| && Priority[n] == kind
  {
    match kind
    case Cpf => 0
    case Cnpj => 1
    case Random => 2
    case Phone => 3
    case Email => 4
  }

  /** Strictly increasing in priority: hence also free of duplicates. */
  predicate Ordered(kinds: seq<PixKeyType>) {
    forall i, j :: 0 <= i < j < |kinds| ==> Rank(kinds[i]) < Rank(kinds[j])
  }

  lemma PriorityIsOrderedAndComplete()
    ensures Ordered(Priority)
    ensures forall kind :: kind in Priority
  {
    forall i | 0 <= i < |Priority| ensures Rank(Priority[i]) == i {
    }
    forall kind ensures kind in Priority {
      assert Priority[Rank(kind)] == kind;
    }
  }

  lemma HeadIsMember(kinds: seq<PixKeyType>)
    requires kinds != []
    ensures kinds[0] in kinds
  {
  }

  /** The head of an ordered list comes first in priority among its members. */
  lemma OrderedHeadComesFirst(kinds: seq<PixKeyType>)
    requires Ordered(kinds) && kinds != []
    ensures forall kind :: kind in kinds ==> Rank(kinds[0]) <= Rank(kind)
  {
    forall kind | kind in kinds ensures Rank(kinds[0]) <= Rank(kind) {
      var i :| 0 <= i < |kinds| && kinds[i] == kind;
    }
  }

  /** Dropping the head of an ordered list keeps it ordered and removes exactly the head. */
  lemma OrderedTail(kinds: seq<PixKeyType>)
    requires Ordered(kinds) && kinds != []
    ensures Ordered(kinds[1..])
    ensures forall kind :: kind in kinds[1..] <==> kind in kinds && kind != kinds[0]
  {
    forall kind ensures kind in kinds[1..] <==> kind in kinds && kind != kinds[0] {
      if kind in kinds && kind != kinds[0] {
        var i :| 0 <= i < |kinds| && kinds[i] == kind;
        assert kinds[1..][i - 1] == kind;
      }
      if kind in kinds[1..] {
        var i :| 0 <= i < |kinds[1..]| && kinds[1..][i] == kind;
        assert kinds[i + 1] == kind;
      }
    }
  }

  /** Two ordered kind lists with the same members are the same list. */
  lemma {:induction false} OrderedByMembers(xs: seq<PixKeyType>, ys: seq<PixKeyType>)
    requires Ordered(xs) && Ordered(ys)
    requires forall kind :: kind in xs <==> kind in ys
    ensures xs == ys
    decreases |xs|
  {
    if xs == [] {
      assert ys == [] by {
        if ys != [] {
          HeadIsMember(ys);
          assert false;
        }
      }
    } else {
      HeadIsMember(xs);
      assert ys != [];
      HeadIsMember(ys);
      OrderedHeadComesFirst(xs);
      OrderedHeadComesFirst(ys);
      assert Rank(xs[0]) == Rank(ys[0]);
      assert xs[0] == Priority[Rank(xs[0])] == ys[0];
      OrderedTail(xs);
      OrderedTail(ys);
      OrderedByMembers(xs[1..], ys[1..]);
      assert xs == [xs[0]] + xs[1..];
      assert ys == [ys[0]] + ys[1..];
    }
  }
}
