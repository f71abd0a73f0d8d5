/**
 The two string operations that the import compares names with. Case folding and white space are
 those of the runtime, so the operations are a parameter: what is used of them is stated here as
 laws, and shown to hold of the ASCII operations.
 */
module TextRules {
  import opened Digits

  datatype TextFunctions = TextFunctions(lower: string -> string, trim: string -> string)

  /** What is put behind a wallet name that is taken: " (Nhập)", " (Nhập 2)", " (Nhập 3)", … */
  function Suffix(k: nat): string {
    if k <= 1 then " (Nh\U{1EAD}p)" else " (Nh\U{1EAD}p " + Decimal(k) + ")"
  }

  ghost predicate Lawful(t: TextFunctions) {
    && (forall x :: t.trim(t.lower(x)) == t.lower(t.trim(x)))
    && (forall x :: t.trim(t.trim(x)) == t.trim(x))
    && (forall x, k: nat :: t.lower(x + Suffix(k)) == t.lower(x) + t.lower(Suffix(k)))
    && (forall j: nat, k: nat :: 1 <= j < k ==> t.lower(Suffix(j)) != t.lower(Suffix(k)))
  }

  type Text = t: TextFunctions | Lawful(t) ghost witness Ascii()

  /** name.toLowerCase().trim() */
  function NameKey(t: TextFunctions, name: string): string {
    t.trim(t.lower(name))
  }

  /** A trimmed name has the key of the name, which is also its lower-case form. */
  lemma TrimmedKey(t: Text, name: string)
    ensures NameKey(t, t.trim(name)) == NameKey(t, name) == t.lower(t.trim(name))
  {
  }

  /** Different numbers make different candidates, whatever the case. */
  lemma CandidatesDiffer(t: Text, name: string, j: nat, k: nat)
    requires 1 <= j < k
    ensures t.lower(name + Suffix(j)) != t.lower(name + Suffix(k))
  {
    var a, b, c := t.lower(name), t.lower(Suffix(j)), t.lower(Suffix(k));
    assert (a + b)[|a|..] == b && (a + c)[|a|..] == c;
  }

  // ---------------------------------------------------------------- the ASCII operations

  function LowerChar(c: char): char {
    if 'A' <= c <= 'Z' then c - 'A' + 'a' else c
  }

  function Lower(s: string): string {
    seq(|s|, i requires 0 <= i < |s| => LowerChar(s[i]))
  }

  function TrimLeft(s: string): (r: string)
    ensures r == "" || r[0] != ' '
  {
    if s != "" && s[0] == ' ' then TrimLeft(s[1..]) else s
  }

  function TrimRight(s: string): (r: string)
    ensures r == "" || r[|r| - 1] != ' '
    ensures r <= s
  {
    if s != "" && s[|s| - 1] == ' ' then TrimRight(s[..|s| - 1]) else s
  }

  lemma {:induction false} LowerTrimLeft(s: string)
    ensures Lower(TrimLeft(s)) == TrimLeft(Lower(s))
    decreases |s|
  {
    if s != "" && s[0] == ' ' {
      LowerTrimLeft(s[1..]);
      assert Lower(s)[1..] == Lower(s[1..]);
    }
  }

  lemma {:induction false} LowerTrimRight(s: string)
    ensures Lower(TrimRight(s)) == TrimRight(Lower(s))
    decreases |s|
  {
    if s != "" && s[|s| - 1] == ' ' {
      LowerTrimRight(s[..|s| - 1]);
      assert Lower(s)[..|s| - 1] == Lower(s[..|s| - 1]);
    }
  }

  lemma LowerSuffix(j: nat, k: nat)
    requires 1 <= j < k
    ensures Lower(Suffix(j)) != Lower(Suffix(k))
  {
    var a, b := Suffix(j), Suffix(k);
    assert b[6] == ' ';
    if Lower(a) == Lower(b) {
      assert Lower(a)[6] == Lower(b)[6];
      assert Lower(a)[6] == LowerChar(a[6]) && Lower(b)[6] == LowerChar(b[6]);
      SuffixNumber(j);
      SuffixNumber(k);
      DecimalInjective(j, k);
    }
  }

  lemma SuffixNumber(k: nat)
    requires k >= 2
    ensures var s := Lower(Suffix(k)); |s| == 8 + |Decimal(k)| && s[7..|s| - 1] == Decimal(k)
  {
    var s := Suffix(k);
    assert s[7..|s| - 1] == Decimal(k);
    assert AllDigits(Decimal(k));
    forall i | 7 <= i < |s| - 1 ensures LowerChar(s[i]) == Decimal(k)[i - 7] {
      assert IsDigit(Decimal(k)[i - 7]);
    }
  }

  /** The ASCII operations obey the laws, so that the laws ask for nothing impossible. */
  ghost function Ascii(): (t: TextFunctions)
    ensures Lawful(t)
  {
    AsciiLaws();
    TextFunctions(s => Lower(s), s => TrimRight(TrimLeft(s)))
  }

  lemma AsciiTrim(x: string)
    ensures TrimRight(TrimLeft(Lower(x))) == Lower(TrimRight(TrimLeft(x)))
    ensures TrimRight(TrimLeft(TrimRight(TrimLeft(x)))) == TrimRight(TrimLeft(x))
  {
    LowerTrimLeft(x);
    LowerTrimRight(TrimLeft(x));
    var y := TrimRight(TrimLeft(x));
    assert y == "" || y[0] == TrimLeft(x)[0];
    assert TrimLeft(y) == y;
  }

  lemma LowerConcat(x: string, y: string)
    ensures Lower(x + y) == Lower(x) + Lower(y)
  {
  }

  lemma AsciiLaws()
    ensures Lawful(TextFunctions(s => Lower(s), s => TrimRight(TrimLeft(s))))
  {
    hide Lower, TrimLeft, TrimRight, Suffix, Decimal, Lawful;
    var t := TextFunctions(s => Lower(s), s => TrimRight(TrimLeft(s)));
    assert Lawful(t) by {
      forall x ensures t.trim(t.lower(x)) == t.lower(t.trim(x)) && t.trim(t.trim(x)) == t.trim(x) {
        AsciiTrim(x);
      }
      forall x, k: nat ensures t.lower(x + Suffix(k)) == t.lower(x) + t.lower(Suffix(k)) {
        LowerConcat(x, Suffix(k));
      }
      forall j: nat, k: nat | 1 <= j < k ensures t.lower(Suffix(j)) != t.lower(Suffix(k)) {
        LowerSuffix(j, k);
      }
      LawfulIs(t);
    }
  }

  lemma LawfulIs(t: TextFunctions)
    requires forall x :: t.trim(t.lower(x)) == t.lower(t.trim(x)) && t.trim(t.trim(x)) == t.trim(x)
    requires forall x, k: nat :: t.lower(x + Suffix(k)) == t.lower(x) + t.lower(Suffix(k))
    requires forall j: nat, k: nat :: 1 <= j < k ==> t.lower(Suffix(j)) != t.lower(Suffix(k))
    ensures Lawful(t)
  {
  }
}
