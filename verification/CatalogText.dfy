/** Product texts as the search sees them: normalised and split into words (catalog/query.py), and as the database
    searches them. Only ASCII texts are treated here; the rules for other scripts do not touch them. */
module CatalogText {
  // ---- characters --------------------------------------------------------------------------------

  predicate IsDigit(c: char) {
    '0' <= c <= '9'
  }

  predicate IsWordChar(c: char) {
    IsDigit(c) || 'a' <= c <= 'z' || 'A' <= c <= 'Z' || c == '_'
  }

  function LowerChar(c: char): char {
    if 'A' <= c <= 'Z' then c + ('a' - 'A') else c
  }

  function Lower(s: string): string {
    seq(|s|, i requires 0 <= i < |s| => LowerChar(s[i]))
  }

  predicate IsAscii(s: string) {
    forall c | c in s :: c < 128 as char
  }

  predicate AllAscii(texts: seq<string>) {
    forall s | s in texts :: IsAscii(s)
  }

  // ---- words -------------------------------------------------------------------------------------

  /** A comma after a digit and before exactly three digits. */
  predicate ThousandsAt(s: string, i: nat) {
    && 1 <= i && i + 3 < |s| && s[i] == ',' && IsDigit(s[i - 1])
    && IsDigit(s[i + 1]) && IsDigit(s[i + 2]) && IsDigit(s[i + 3])
    && !(i + 4 < |s| && IsDigit(s[i + 4]))
  }

  predicate NoThousands(s: string) {
    forall i | 0 <= i < |s| :: !ThousandsAt(s, i)
  }

  /** The first n characters without their thousands commas. */
  function WithoutCommas(s: string, n: nat): string
    requires n <= |s|
  {
    if n == 0 then "" else WithoutCommas(s, n - 1) + if ThousandsAt(s, n - 1) then "" else [s[n - 1]]
  }

  function Normalised(s: string): string {
    WithoutCommas(Lower(s), |s|)
  }

  /** How many word characters the text begins with. */
  function WordLength(s: string): (n: nat)
    ensures n <= |s| && forall i | 0 <= i < n :: IsWordChar(s[i])
  {
    if s == "" || !IsWordChar(s[0]) then 0 else 1 + WordLength(s[1..])
  }

  /** The maximal runs of word characters. */
  function Words(s: string): seq<string> {
    if s == "" then []
    else
      var n := WordLength(s);
      if n == 0 then Words(s[1..]) else [s[..n]] + Words(s[n..])
  }

  function Join(texts: seq<string>): string {
    if texts == [] then "" else if |texts| == 1 then texts[0] else texts[0] + " " + Join(texts[1..])
  }

  function Present(texts: seq<string>): seq<string> {
    if texts == [] then [] else (if texts[0] == "" then [] else [texts[0]]) + Present(texts[1..])
  }

  /** product_words: the texts that are there, joined, normalised and split. */
  function WordsOf(texts: seq<string>): set<string> {
    set t | t in Words(Normalised(Join(Present(texts))))
  }

  // ---- the stored text ---------------------------------------------------------------------------

  predicate FoundAt(column: string, token: string, i: nat) {
    i + |token| <= |column| && Lower(column[i..i + |token|]) == Lower(token)
  }

  /** Substring match ignoring ASCII case. */
  predicate IContains(column: string, token: string) {
    exists i | 0 <= i <= |column| :: FoundAt(column, token, i)
  }

  // ---- without thousands commas, every word is in some stored text -------------------------------

  lemma LowerKeepsCommas(s: string, i: nat)
    ensures ThousandsAt(Lower(s), i) <==> ThousandsAt(s, i)
  {
  }

  lemma {:induction false} NothingRemoved(s: string, n: nat)
    requires n <= |s| && NoThousands(s)
    ensures WithoutCommas(s, n) == s[..n]
  {
    if n > 0 {
      NothingRemoved(s, n - 1);
    }
  }

  /** A text with one comma, between thousands, loses just that. */
  lemma {:induction false} CommaRemoved(s: string, k: nat, n: nat)
    requires n <= |s| && ThousandsAt(s, k) && forall i | 0 <= i < |s| && i != k :: s[i] != ','
    ensures WithoutCommas(s, n) == if n <= k then s[..n] else s[..k] + s[k + 1..n]
  {
    if n > 0 {
      CommaRemoved(s, k, n - 1);
    }
  }

  lemma PlainIsLower(s: string)
    requires NoThousands(s)
    ensures Normalised(s) == Lower(s)
  {
    forall i | 0 <= i < |s|
      ensures !ThousandsAt(Lower(s), i)
    {
      LowerKeepsCommas(s, i);
    }
    NothingRemoved(Lower(s), |s|);
  }

  lemma JoinTwoPlain(a: string, b: string)
    requires NoThousands(a) && NoThousands(b)
    ensures NoThousands(a + " " + b)
  {
    var s := a + " " + b;
    forall i | 0 <= i < |s|
      ensures !ThousandsAt(s, i)
    {
      assert i < |a| ==> !ThousandsAt(a, i);
      assert i > |a| ==> !ThousandsAt(b, i - |a| - 1);
    }
  }

  lemma {:induction false} JoinPlain(texts: seq<string>)
    requires forall s | s in texts :: NoThousands(s)
    ensures NoThousands(Join(Present(texts)))
  {
    if texts != [] {
      JoinPlain(texts[1..]);
      var rest := Present(texts[1..]);
      if texts[0] != "" && rest != [] {
        JoinTwoPlain(texts[0], Join(rest));
        assert ([texts[0]] + rest)[1..] == rest;
      } else if texts[0] != "" {
        assert Present(texts) == [texts[0]];
      } else {
        assert Present(texts) == rest;
      }
    }
  }

  predicate IsWord(t: string) {
    t != "" && forall i | 0 <= i < |t| :: IsWordChar(t[i])
  }

  lemma {:induction false} WordsAreInside(s: string, t: string) returns (i: nat)
    requires t in Words(s)
    ensures IsWord(t) && i + |t| <= |s| && s[i..i + |t|] == t
  {
    var n := WordLength(s);
    if n == 0 {
      var j := WordsAreInside(s[1..], t);
      i := j + 1;
    } else if t == s[..n] {
      i := 0;
    } else {
      var j := WordsAreInside(s[n..], t);
      i := j + n;
    }
  }

  /** The first word ends where its word characters do. */
  lemma {:induction false} FirstWord(t: string, rest: string)
    requires IsWord(t) && (rest == "" || !IsWordChar(rest[0]))
    ensures WordLength(t + rest) == |t| && Words(t + rest) == [t] + Words(rest)
  {
    if |t| == 1 {
      assert (t + rest)[1..] == rest;
    } else {
      assert (t + rest)[1..] == t[1..] + rest;
      FirstWord(t[1..], rest);
    }
    assert (t + rest)[..|t|] == t && (t + rest)[|t|..] == rest;
  }

  lemma LowerWordIsFound(s: string, t: string)
    requires t in Words(Lower(s))
    ensures IsWord(t) && IContains(s, t)
  {
    var i := WordsAreInside(Lower(s), t);
    assert Lower(s[i..i + |t|]) == t;
    assert Lower(t) == t by {
      assert forall k | 0 <= k < |t| :: t[k] == LowerChar(s[i..i + |t|][k]);
    }
    assert FoundAt(s, t, i);
  }

  /** A word does not reach across the space between two texts. */
  lemma FoundInOne(a: string, b: string, t: string)
    requires IsWord(t) && IContains(a + " " + b, t)
    ensures IContains(a, t) || IContains(b, t)
  {
    var s := a + " " + b;
    var i :| 0 <= i <= |s| && FoundAt(s, t, i);
    forall m | i <= m < i + |t|
      ensures s[m] != ' '
    {
      assert Lower(s[i..i + |t|])[m - i] == Lower(t)[m - i];
      assert IsWordChar(t[m - i]);
    }
    assert s[|a|] == ' ';
    assert !(i <= |a| < i + |t|);
    if i + |t| <= |a| {
      assert a[i..i + |t|] == s[i..i + |t|];
      assert FoundAt(a, t, i);
    } else {
      var j := i - |a| - 1;
      assert b[j..j + |t|] == s[i..i + |t|];
      assert FoundAt(b, t, j);
    }
  }

  lemma {:induction false} FoundInSome(texts: seq<string>, t: string)
    requires IsWord(t) && IContains(Join(Present(texts)), t)
    ensures exists s :: s in texts && IContains(s, t)
  {
    if texts != [] {
      var rest := Present(texts[1..]);
      if texts[0] == "" {
        assert Present(texts) == rest;
        FoundInSome(texts[1..], t);
      } else if rest == [] {
        assert Present(texts) == [texts[0]];
      } else {
        assert ([texts[0]] + rest)[1..] == rest;
        FoundInOne(texts[0], Join(rest), t);
        if IContains(Join(rest), t) {
          FoundInSome(texts[1..], t);
        }
      }
    }
  }

  /** Texts without thousands commas hold every one of their words as they are stored. */
  lemma PlainTextsHoldTheirWords(texts: seq<string>, t: string)
    requires (forall s | s in texts :: NoThousands(s)) && t in WordsOf(texts)
    ensures exists s :: s in texts && IContains(s, t)
  {
    JoinPlain(texts);
    PlainIsLower(Join(Present(texts)));
    LowerWordIsFound(Join(Present(texts)), t);
    FoundInSome(texts, t);
  }

  // ---- words are what they normalise to ----------------------------------------------------------

  /** Typing the word on its own gives that word. */
  predicate IsToken(t: string) {
    Words(Normalised(t)) == [t]
  }

  lemma {:induction false} WithoutCommasInside(s: string, n: nat, i: nat)
    requires n <= |s| && i < |WithoutCommas(s, n)|
    ensures WithoutCommas(s, n)[i] in s
  {
    if i < |WithoutCommas(s, n - 1)| {
      WithoutCommasInside(s, n - 1, i);
    }
  }

  /** Whatever text is typed, each of its words is what it normalises to. */
  lemma WordsAreTokens(text: string, t: string)
    requires t in Words(Normalised(text))
    ensures IsToken(t)
  {
    var i := WordsAreInside(Normalised(text), t);
    forall k | 0 <= k < |t|
      ensures LowerChar(t[k]) == t[k]
    {
      assert t[k] == Normalised(text)[i + k];
      WithoutCommasInside(Lower(text), |text|, i + k);
    }
    assert Lower(t) == t;
    assert NoThousands(t);
    PlainIsLower(t);
    FirstWord(t, "");
    assert t + "" == t;
  }
}
