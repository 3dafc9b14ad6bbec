/** Trimming and measuring text. */
module Text {
  function Trim(s: string, blank: char -> bool): string {
    TrimRight(TrimLeft(s, blank), blank)
  }

  function TrimLeft(s: string, blank: char -> bool): string {
    if |s| > 0 && blank(s[0]) then TrimLeft(s[1..], blank) else s
  }

  function TrimRight(s: string, blank: char -> bool): string {
    if |s| > 0 && blank(s[|s| - 1]) then TrimRight(s[..|s| - 1], blank) else s
  }

  /** Neither end is blank. */
  predicate Trimmed(s: string, blank: char -> bool) {
    |s| > 0 ==> !blank(s[0]) && !blank(s[|s| - 1])
  }

  lemma {:induction false} LeftIsTrimmed(s: string, blank: char -> bool)
    ensures var t := TrimLeft(s, blank);
            && (|t| > 0 ==> !blank(t[0]))
            && (t == "" <==> forall c :: c in s ==> blank(c))
  {
    if |s| > 0 && blank(s[0]) {
      LeftIsTrimmed(s[1..], blank);
      assert s == [s[0]] + s[1..];
    }
  }

  lemma {:induction false} RightIsTrimmed(s: string, blank: char -> bool)
    ensures var t := TrimRight(s, blank);
            && (|t| > 0 ==> !blank(t[|t| - 1]) && t[0] == s[0])
            && (|s| > 0 && !blank(s[0]) ==> |t| > 0)
  {
    if |s| > 0 && blank(s[|s| - 1]) {
      RightIsTrimmed(s[..|s| - 1], blank);
    }
  }

  /** Trimming leaves no blank at either end, and nothing of a text that is all blank. */
  lemma TrimTrims(s: string, blank: char -> bool)
    ensures Trimmed(Trim(s, blank), blank)
    ensures Trim(s, blank) == "" <==> forall c :: c in s ==> blank(c)
  {
    LeftIsTrimmed(s, blank);
    RightIsTrimmed(TrimLeft(s, blank), blank);
  }

  lemma TrimmedIsFixed(s: string, blank: char -> bool)
    requires Trimmed(s, blank)
    ensures Trim(s, blank) == s
  {
  }

  /** Trimming takes blanks from the ends and nothing else. */
  lemma TrimIsMiddle(s: string, blank: char -> bool) returns (left: string, right: string)
    ensures s == left + Trim(s, blank) + right
    ensures (forall c :: c in left ==> blank(c)) && (forall c :: c in right ==> blank(c))
  {
    left := LeftBlanks(s, blank);
    right := RightBlanks(TrimLeft(s, blank), blank);
  }

  lemma {:induction false} LeftBlanks(s: string, blank: char -> bool) returns (left: string)
    ensures s == left + TrimLeft(s, blank) && forall c :: c in left ==> blank(c)
  {
    if |s| > 0 && blank(s[0]) {
      var rest := LeftBlanks(s[1..], blank);
      left := [s[0]] + rest;
      assert s == [s[0]] + s[1..];
    } else {
      left := "";
    }
  }

  lemma {:induction false} RightBlanks(s: string, blank: char -> bool) returns (right: string)
    ensures s == TrimRight(s, blank) + right && forall c :: c in right ==> blank(c)
  {
    if |s| > 0 && blank(s[|s| - 1]) {
      var rest := RightBlanks(s[..|s| - 1], blank);
      right := rest + [s[|s| - 1]];
      assert s == s[..|s| - 1] + [s[|s| - 1]];
    } else {
      right := "";
    }
  }

  /** The length of the UTF-8 encoding. */
  function Bytes(s: string): nat {
    if |s| == 0 then 0 else Bytes(s[..|s| - 1]) + Width(s[|s| - 1])
  }

  function Width(c: char): nat {
    if c < '\U{80}' then 1 else if c < '\U{800}' then 2 else if c < '\U{10000}' then 3 else 4
  }
}
