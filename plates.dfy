/**
 * Plate validation and normalisation (validasi_plat in models.py).
 * Python's character predicates and case mapping are modelled on ASCII.
 */
module Plates {
  import opened Options

  predicate IsUpperLetter(c: char) { 'A' <= c <= 'Z' }
  predicate IsLowerLetter(c: char) { 'a' <= c <= 'z' }

  /** str.isalpha on ASCII. */
  predicate IsLetter(c: char) { IsUpperLetter(c) || IsLowerLetter(c) }

  /** str.isdigit on ASCII. */
  predicate IsDigit(c: char) { '0' <= c <= '9' }

  /** str.isspace on ASCII: tab, line feed, vertical tab, form feed, carriage return,
      the four information separators and the space. */
  predicate IsSpace(c: char) { '\t' <= c <= '\r' || '\U{1C}' <= c <= ' ' }

  /** Every character of `s` outside positions i..j is whitespace. */
  predicate BlankOutside(s: string, i: int, j: int)
  {
    forall k :: 0 <= k < |s| && !(i <= k < j) ==> IsSpace(s[k])
  }
  predicate NoLowerCase(s: string) { forall i :: 0 <= i < |s| ==> !IsLowerLetter(s[i]) }

  /** Neither end of `s` is whitespace. */
  predicate Trimmed(s: string) { s == [] || (!IsSpace(s[0]) && !IsSpace(s[|s| - 1])) }

  /** str.upper on one ASCII character. */
  function UpperChar(c: char): (u: char)
    ensures !IsLowerLetter(u)
    ensures IsLetter(u) == IsLetter(c) && IsDigit(u) == IsDigit(c) && IsSpace(u) == IsSpace(c)
    ensures !IsLowerLetter(c) ==> u == c
    ensures IsLowerLetter(c) ==> IsUpperLetter(u) && u as int == c as int - 32
  {
    if IsLowerLetter(c) then (c as int - 32) as char else c
  }

  /** str.upper on an ASCII string. */
  function Upper(s: string): (u: string)
    ensures |u| == |s|
  {
    if s == [] then [] else [UpperChar(s[0])] + Upper(s[1..])
  }

  /** str.upper maps every character on its own and keeps the length. */
  lemma {:induction false} UpperAt(s: string)
    ensures |Upper(s)| == |s|
    ensures forall i :: 0 <= i < |s| ==> Upper(s)[i] == UpperChar(s[i])
  {
    if s != [] {
      UpperAt(s[1..]);
      assert forall i :: 1 <= i < |s| ==> Upper(s)[i] == Upper(s[1..])[i - 1];
    }
  }

  /** Drops the leading whitespace (str.lstrip). */
  function StripLeft(s: string): string
    decreases |s|
  {
    if s != [] && IsSpace(s[0]) then StripLeft(s[1..]) else s
  }

  /** Drops the trailing whitespace (str.rstrip). */
  function StripRight(s: string): string
    decreases |s|
  {
    if s != [] && IsSpace(s[|s| - 1]) then StripRight(s[..|s| - 1]) else s
  }

  /** str.lstrip removes a prefix made only of whitespace, and all of it. */
  lemma {:induction false} StripLeftSpec(s: string)
    ensures var t := StripLeft(s);
      && |t| <= |s| && t == s[|s| - |t|..]
      && (t == [] || !IsSpace(t[0]))
      && forall k :: 0 <= k < |s| - |t| ==> IsSpace(s[k])
    decreases |s|
  {
    if s != [] && IsSpace(s[0]) {
      StripLeftSpec(s[1..]);
      assert forall k :: 1 <= k < |s| ==> s[1..][k - 1] == s[k];
    }
  }

  /** str.rstrip removes a suffix made only of whitespace, and all of it. */
  lemma {:induction false} StripRightSpec(s: string)
    ensures var t := StripRight(s);
      && |t| <= |s| && t == s[..|t|]
      && (t == [] || !IsSpace(t[|t| - 1]))
      && forall k :: |t| <= k < |s| ==> IsSpace(s[k])
    decreases |s|
  {
    if s != [] && IsSpace(s[|s| - 1]) {
      StripRightSpec(s[..|s| - 1]);
      assert forall k :: 0 <= k < |s| - 1 ==> s[..|s| - 1][k] == s[k];
    }
  }

  /** str.strip */
  function Strip(s: string): (t: string)
    ensures |t| <= |s| && Trimmed(t)
  {
    var r := StripRight(s);
    StripRightSpec(s);
    StripLeftSpec(r);
    var t := StripLeft(r);
    assert t != [] ==> t[|t| - 1] == r[|r| - 1];
    t
  }

  /** str.strip leaves neither end blank, and what it removes is whitespace at the two ends. */
  lemma StripSpec(s: string)
    ensures Trimmed(Strip(s))
    ensures exists i, j :: 0 <= i <= j <= |s| && Strip(s) == s[i..j] && BlankOutside(s, i, j)
  {
    var r := StripRight(s);
    var t := StripLeft(r);
    StripRightSpec(s);
    StripLeftSpec(r);
    assert t == s[|r| - |t|..|r|];
    assert forall k :: 0 <= k < |r| ==> r[k] == s[k];
    assert BlankOutside(s, |r| - |t|, |r|);
    if t != [] {
      assert t[|t| - 1] == r[|r| - 1];
    }
  }

  /** plat.upper().strip() */
  function Normalize(raw: string): (n: string)
    ensures |n| <= |raw| && Trimmed(n)
  {
    Strip(Upper(raw))
  }

  predicate HasDigit(p: string) { exists i :: 0 <= i < |p| && IsDigit(p[i]) }
  predicate HasLetter(p: string) { exists i :: 0 <= i < |p| && IsLetter(p[i]) }

  /** The format rules a normalised plate must meet: at least two characters, a letter first,
      and at least one digit and one letter. */
  predicate PlateRules(p: string)
  {
    |p| >= 2 && IsLetter(p[0]) && HasDigit(p) && HasLetter(p)
  }

  /** validasi_plat: the normalised plate, or None (Python's False) when it breaks a rule. */
  function ValidatePlate(raw: string): (r: Option<string>)
    ensures r.Some? <==> PlateRules(Normalize(raw))
    ensures r.Some? ==> r.value == Normalize(raw)
  {
    var plate := Normalize(raw);
    if |plate| < 2 then None
    else if !IsLetter(plate[0]) then None
    else if !HasDigit(plate) || !HasLetter(plate) then None
    else Some(plate)
  }

  /** The form of every plate the engine stores: it meets the rules, has no lower-case
      letter and no surrounding whitespace. */
  predicate IsNormalPlate(p: string) { PlateRules(p) && NoLowerCase(p) && Trimmed(p) }

  /** What validasi_plat returns is a normal plate: it meets the rules, is upper-case and has
      no surrounding whitespace. */
  lemma ValidatePlateSpec(raw: string)
    ensures ValidatePlate(raw).Some? ==> IsNormalPlate(ValidatePlate(raw).value)
  {
    UpperHasNoLowerCase(raw);
    StripSpec(Upper(raw));
  }

  lemma UpperHasNoLowerCase(s: string)
    ensures NoLowerCase(Upper(s))
    ensures NoLowerCase(Normalize(s))
  {
    UpperAt(s);
    var u := Upper(s);
    assert NoLowerCase(u);
    StripSpec(u);
    var i, j :| 0 <= i <= j <= |u| && Strip(u) == u[i..j] && BlankOutside(u, i, j);
    SliceKeepsNoLowerCase(u, i, j);
  }

  lemma SliceKeepsNoLowerCase(s: string, i: nat, j: nat)
    requires NoLowerCase(s) && i <= j <= |s|
    ensures NoLowerCase(s[i..j])
  {
    forall k | 0 <= k < j - i ensures !IsLowerLetter(s[i..j][k]) {
      assert s[i..j][k] == s[i + k];
    }
  }

  /** str.upper leaves a string without lower-case letters as it is. */
  lemma {:induction false} UpperFixesUpperCase(s: string)
    requires NoLowerCase(s)
    ensures Upper(s) == s
  {
    if s != [] {
      assert forall k :: 0 <= k < |s| - 1 ==> s[1..][k] == s[k + 1];
      UpperFixesUpperCase(s[1..]);
      assert s == [s[0]] + s[1..];
    }
  }

  /** str.strip leaves a string with no blank end as it is. */
  lemma StripFixesTrimmed(s: string)
    requires Trimmed(s)
    ensures Strip(s) == s
  {
  }

  /** Normalising twice is normalising once. */
  lemma NormalizeIdempotent(raw: string)
    ensures Normalize(Normalize(raw)) == Normalize(raw)
  {
    var n := Normalize(raw);
    UpperHasNoLowerCase(raw);
    StripSpec(Upper(raw));
    UpperFixesUpperCase(n);
    StripFixesTrimmed(n);
  }

  /** The normal plates are exactly the fixed points of validation, so re-running check-in
      on a queued plate (as check-out does when it promotes the queue head) sees the same plate. */
  lemma NormalPlateIsFixedPoint(p: string)
    ensures IsNormalPlate(p) <==> ValidatePlate(p) == Some(p)
  {
    if IsNormalPlate(p) {
      UpperFixesUpperCase(p);
      StripFixesTrimmed(p);
      assert Normalize(p) == p;
    }
    ValidatePlateSpec(p);
  }

  /** Validation ignores letter case: "b12a" and "B12A" name the same plate. */
  lemma ValidateIgnoresCase(raw: string)
    ensures ValidatePlate(Upper(raw)) == ValidatePlate(raw)
  {
    UpperHasNoLowerCase(raw);
    UpperFixesUpperCase(Upper(raw));
  }

  /** Plates that break the rules: too short, no digit, and a digit first (the message of
      masuk names "B12A" as the correct form). */
  lemma RejectedPlateExamples()
    ensures ValidatePlate("1") == None
    ensures ValidatePlate("AB") == None
    ensures ValidatePlate("12AB") == None
  {
    assert Normalize("1") == "1" by {
      UpperFixesUpperCase("1");
      StripFixesTrimmed("1");
    }
    assert Normalize("AB") == "AB" by {
      UpperFixesUpperCase("AB");
      StripFixesTrimmed("AB");
    }
    assert !HasDigit("AB");
    assert Normalize("12AB") == "12AB" by {
      UpperFixesUpperCase("12AB");
      StripFixesTrimmed("12AB");
    }
  }

  lemma UpperExample()
    ensures Upper(" b12a\t") == " B12A\t"
  {
    UpperAt(" b12a\t");
    var u := Upper(" b12a\t");
    forall k | 0 <= k < 6 ensures u[k] == " B12A\t"[k] {
      assert u[k] == UpperChar(" b12a\t"[k]);
    }
  }

  lemma StripExample()
    ensures Strip(" B12A\t") == "B12A"
  {
    assert " B12A\t"[..5] == " B12A";
    assert StripRight(" B12A\t") == " B12A";
    assert " B12A"[1..] == "B12A";
    assert StripLeft(" B12A") == "B12A";
  }

  /** A well-formed plate is accepted, with the case and surrounding blanks normalised away. */
  lemma AcceptedPlateExample()
    ensures ValidatePlate(" b12a\t") == Some("B12A")
  {
    assert Normalize(" b12a\t") == "B12A" by {
      UpperExample();
      StripExample();
    }
    assert PlateRules("B12A") by {
      assert IsDigit("B12A"[1]) && IsLetter("B12A"[0]);
    }
  }
}
