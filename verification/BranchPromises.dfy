/** What the branch names promise in plain terms, without the vocabulary of the check. */
module BranchPromises {
  import opened Prelude
  import opened BranchNames

  // ----- alphabets -----

  const SMALL := "abcdefghijklmnopqrstuvwxyz"

  const CAPITALS := "ABCDEFGHIJKLMNOPQRSTUVWXYZ"

  const DIGITS := "0123456789"

  /** `White_Space` of Unicode. */
  const BLANKS: string := [
    '\U{0009}', '\U{000A}', '\U{000B}', '\U{000C}', '\U{000D}', ' ', '\U{0085}', '\U{00A0}', '\U{1680}',
    '\U{2000}', '\U{2001}', '\U{2002}', '\U{2003}', '\U{2004}', '\U{2005}', '\U{2006}', '\U{2007}', '\U{2008}',
    '\U{2009}', '\U{200A}', '\U{2028}', '\U{2029}', '\U{202F}', '\U{205F}', '\U{3000}']

  lemma SmallLetters(c: char)
    ensures 'a' <= c <= 'z' <==> c in SMALL
  {
    if 'a' <= c <= 'z' {
      assert SMALL[c as int - 'a' as int] == c;
    }
  }

  lemma CapitalLetters(c: char)
    ensures 'A' <= c <= 'Z' <==> c in CAPITALS
  {
    if 'A' <= c <= 'Z' {
      assert CAPITALS[c as int - 'A' as int] == c;
    }
  }

  lemma Digits(c: char)
    ensures '0' <= c <= '9' <==> c in DIGITS
  {
    if '0' <= c <= '9' {
      assert DIGITS[c as int - '0' as int] == c;
    }
  }

  predicate Alphanumeric(c: char) {
    c in SMALL || c in DIGITS || c in CAPITALS
  }

  /** The characters of a slug, those that may start a branch name, those that may follow. */
  lemma Alphabets(c: char)
    ensures IsSlugLetter(c) <==> c in SMALL || c in DIGITS
    ensures IsAlnum(c) <==> Alphanumeric(c)
    ensures IsRefChar(c) <==> Alphanumeric(c) || c == '.' || c == '_' || c == '/' || c == '-'
  {
    SmallLetters(c);
    CapitalLetters(c);
    Digits(c);
    hide SMALL, CAPITALS, DIGITS;
  }

  lemma Blanks(c: char)
    ensures IsWhitespace(c) <==> c in BLANKS
  {
    var n := c as int;
    if 9 <= n <= 13 {
      assert BLANKS[n - 9] == c;
    } else if 0x2000 <= n <= 0x200A {
      assert BLANKS[9 + n - 0x2000] == c;
    } else {
      assert BLANKS[5] == ' ' && BLANKS[6] == '\U{0085}' && BLANKS[7] == '\U{00A0}' && BLANKS[8] == '\U{1680}';
      assert BLANKS[20] == '\U{2028}' && BLANKS[21] == '\U{2029}' && BLANKS[22] == '\U{202F}';
      assert BLANKS[23] == '\U{205F}' && BLANKS[24] == '\U{3000}';
    }
  }

  // ----- the check -----

  function Rejoined(parts: seq<string>): string {
    if |parts| == 0 then ""
    else if |parts| == 1 then parts[0]
    else parts[0] + "/" + Rejoined(parts[1..])
  }

  /** The parts of a path are its slash-free pieces, empty ones included. */
  lemma {:induction false} PartsAreThePieces(s: string)
    ensures Rejoined(Split(s)) == s
    ensures forall p :: p in Split(s) ==> '/' !in p
  {
    hide Split;
    SplitStep(s);
    if s != "" {
      PartsAreThePieces(s[1..]);
      RejoinStep(s[0], Split(s[1..]));
      var rest := Split(s[1..]);
      assert rest[0] in rest;
      assert s == [s[0]] + s[1..];
    }
  }

  lemma RejoinStep(c: char, rest: seq<string>)
    requires rest != []
    ensures Rejoined([""] + rest) == "/" + Rejoined(rest)
    ensures Rejoined([[c] + rest[0]] + rest[1..]) == [c] + Rejoined(rest)
  {
    assert ([""] + rest)[1..] == rest;
    assert "" + "/" + Rejoined(rest) == "/" + Rejoined(rest);
    var more := [[c] + rest[0]] + rest[1..];
    assert more[1..] == rest[1..];
    if |rest| > 1 {
      assert [c] + rest[0] + "/" + Rejoined(rest[1..]) == [c] + (rest[0] + "/" + Rejoined(rest[1..]));
    }
  }

  predicate PlainChar(c: char) {
    Alphanumeric(c) || c == '.' || c == '_' || c == '/' || c == '-'
  }

  predicate PlainPiece(p: string) {
    p != "" && p != "." && !(|p| >= 5 && p[|p| - 5..] == ".lock")
  }

  predicate DotsApart(s: string) {
    forall i :: 0 <= i < |s| - 1 ==> !(s[i] == '.' && s[i + 1] == '.')
  }

  /** A branch name passes exactly if it starts with a letter or digit, is written in
      letters, digits and `._/-`, has no two dots in a row, and none of its pieces between
      slashes is empty, a single dot, or ends in ".lock". */
  lemma SafeInPlainTerms(s: string)
    ensures SafeBranch(s) <==>
              && s != "" && Alphanumeric(s[0]) && (forall i :: 0 <= i < |s| ==> PlainChar(s[i]))
              && DotsApart(s)
              && (forall p :: p in Split(s) ==> PlainPiece(p))
  {
    SafeBranchIsASafePath(s);
    hide SafeBranch, Split, IsAlnum, IsRefChar, Alphanumeric, DotsApart, UnsafePart, Contains, PlainPiece, PlainChar;
    if s != "" {
      Alphabets(s[0]);
    }
    forall i | 0 <= i < |s| ensures IsRefChar(s[i]) <==> PlainChar(s[i]) {
      PlainCharacters(s[i]);
    }
    TwoDots(s);
    forall p | p in Split(s) && !Contains(s, "..") ensures UnsafePart(p) <==> !PlainPiece(p) {
      PlainPieces(s, p);
    }
  }

  lemma PlainCharacters(c: char)
    ensures IsRefChar(c) <==> PlainChar(c)
  {
    Alphabets(c);
    hide Alphanumeric;
  }

  lemma PlainPieces(s: string, p: string)
    requires p in Split(s) && !Contains(s, "..")
    ensures UnsafePart(p) <==> !PlainPiece(p)
  {
    PieceOccurs(s, p);
    hide Contains, Split;
  }

  lemma TwoDots(s: string)
    ensures Contains(s, "..") <==> !DotsApart(s)
  {
    if Contains(s, "..") {
      var i: nat :| OccursAt(s, "..", i);
      assert s[i..i + 2][0] == '.' && s[i..i + 2][1] == '.';
    }
    if i :| 0 <= i < |s| - 1 && s[i] == '.' && s[i + 1] == '.' {
      assert s[i..i + 2] == "..";
      assert OccursAt(s, "..", i);
    }
  }

  lemma {:induction false} PieceOccurs(s: string, p: string)
    requires p in Split(s)
    ensures Contains(s, p)
  {
    PartsAreThePieces(s);
    var i :| 0 <= i < |Split(s)| && Split(s)[i] == p;
    RejoinedContains(Split(s), i);
  }

  lemma {:induction false} RejoinedContains(parts: seq<string>, i: nat)
    requires i < |parts|
    ensures Contains(Rejoined(parts), parts[i])
  {
    var s := Rejoined(parts);
    if i == 0 {
      assert s[0..|parts[0]|] == parts[0];
      assert OccursAt(s, parts[0], 0);
    } else {
      RejoinedContains(parts[1..], i - 1);
      var k: nat :| OccursAt(Rejoined(parts[1..]), parts[1..][i - 1], k);
      var n := |parts[0]| + 1;
      assert s[n..] == Rejoined(parts[1..]);
      assert s[n + k..n + k + |parts[i]|] == Rejoined(parts[1..])[k..k + |parts[i]|];
      assert OccursAt(s, parts[i], n + k);
    }
  }

  // ----- trimming -----

  predicate AllDropped(s: string, drop: char -> bool) {
    forall c :: c in s ==> drop(c)
  }

  /** Trimming takes off everything to be dropped at both ends, and nothing else. */
  lemma TrimTakesOffTheEnds(s: string, drop: char -> bool) returns (a: string, b: string)
    ensures s == a + Trim(s, drop) + b && AllDropped(a, drop) && AllDropped(b, drop)
    ensures var t := Trim(s, drop); t != "" ==> !drop(t[0]) && !drop(t[|t| - 1])
  {
    a := StartTakenOff(s, drop);
    var rest := TrimStart(s, drop);
    b := EndTakenOff(rest, drop);
    assert s == a + (Trim(s, drop) + b);
  }

  lemma {:induction false} StartTakenOff(s: string, drop: char -> bool) returns (a: string)
    ensures s == a + TrimStart(s, drop) && AllDropped(a, drop)
    ensures TrimStart(s, drop) != "" ==> !drop(TrimStart(s, drop)[0])
  {
    a := "";
    if s != "" && drop(s[0]) {
      var more := StartTakenOff(s[1..], drop);
      a := [s[0]] + more;
    }
  }

  lemma {:induction false} EndTakenOff(s: string, drop: char -> bool) returns (b: string)
    ensures s == TrimEnd(s, drop) + b && AllDropped(b, drop)
    ensures TrimEnd(s, drop) <= s
    ensures TrimEnd(s, drop) != "" ==> !drop(TrimEnd(s, drop)[|TrimEnd(s, drop)| - 1])
  {
    b := "";
    if s != "" && drop(s[|s| - 1]) {
      var more := EndTakenOff(s[..|s| - 1], drop);
      b := more + [s[|s| - 1]];
    }
  }

  // ----- the slug -----

  /** The words of a text: a text of letters and digits is one word, any other character
      separates. */
  lemma {:induction false} WordsAreSeparated(a: string, c: char, b: string)
    requires !IsSlugLetter(c)
    ensures Words(a + [c] + b) == Words(a) + Words(b)
    decreases |a|
  {
    hide Words, FirstWord, IsSlugLetter;
    var s := a + [c] + b;
    assert s[0] == (a + [c])[0];
    WordsStep(s);
    WordsStep(a);
    if a == "" {
      assert s[1..] == b;
    } else if IsSlugLetter(a[0]) {
      var w := FirstWord(a);
      FirstWordStays(a, c, b);
      assert s[|w|..] == a[|w|..] + [c] + b;
      WordsAreSeparated(a[|w|..], c, b);
      assert [w] + (Words(a[|w|..]) + Words(b)) == [w] + Words(a[|w|..]) + Words(b);
    } else {
      assert s[1..] == a[1..] + [c] + b;
      WordsAreSeparated(a[1..], c, b);
    }
  }

  lemma WordsStep(s: string)
    ensures Words("") == []
    ensures s != "" && !IsSlugLetter(s[0]) ==> Words(s) == Words(s[1..])
    ensures
      s != "" && IsSlugLetter(s[0]) ==>
        0 < |FirstWord(s)| <= |s| && Words(s) == [FirstWord(s)] + Words(s[|FirstWord(s)|..])
  {
  }

  lemma {:induction false} FirstWordStays(a: string, c: char, b: string)
    requires !IsSlugLetter(c)
    ensures FirstWord(a + [c] + b) == FirstWord(a)
  {
    if a != "" && IsSlugLetter(a[0]) {
      assert (a + [c] + b)[1..] == a[1..] + [c] + b;
      FirstWordStays(a[1..], c, b);
    }
  }

  lemma {:induction false} OneWord(s: string)
    requires s != "" && forall i :: 0 <= i < |s| ==> IsSlugLetter(s[i])
    ensures FirstWord(s) == s && Words(s) == [s] && Words("") == []
  {
    if |s| > 1 {
      OneWord(s[1..]);
    } else {
      assert FirstWord(s[1..]) == "";
    }
  }

  /** The slug of a lower-cased title: its words joined by dashes, at most eighty
      characters of that, or "thread". */
  lemma SlugInPlainTerms(lower: string)
    ensures
      var joined := Join(Words(lower));
      SlugOfLower(lower)
      == if Words(lower) == [] then "thread" else joined[..if |joined| <= 80 then |joined| else 80]
  {
    SlugIsItsWords(lower);
  }

  // ----- the session branch -----

  /** A text with nothing but blanks in it. */
  predicate Blank(s: string) {
    forall c :: c in s ==> c in BLANKS
  }

  lemma BlankTrimsAway(s: string)
    ensures Trim(s, IsWhitespace) == "" <==> Blank(s)
  {
    var a, b := TrimTakesOffTheEnds(s, IsWhitespace);
    var t := Trim(s, IsWhitespace);
    forall c | c in a || c in b ensures c in BLANKS {
      Blanks(c);
    }
    if t == "" {
      assert s == a + b;
    } else {
      Blanks(t[0]);
      assert t[0] in s;
    }
  }

  /** The first of title and prompt that is not blank makes the slug, trimmed, and
      otherwise the session id; a branch hint that is not blank is taken, trimmed, if and
      only if it passes the check, and nothing else then matters. */
  lemma HintsInTurn(prefix: string, sessionId: string, branchHint: Option<string>, title: Option<string>,
                    prompt: Option<string>, toLowercase: string -> string)
    ensures
      var result := SessionBranch(prefix, sessionId, branchHint, title, prompt, toLowercase);
      if branchHint.Some? && !Blank(branchHint.value) then
        var hint := Trim(branchHint.value, IsWhitespace);
        result == if SafeBranch(hint) then Ok(hint) else Err(InvalidBranch(hint))
      else
        var text := if title.Some? && !Blank(title.value) then Trim(title.value, IsWhitespace)
                    else if prompt.Some? && !Blank(prompt.value) then Trim(prompt.value, IsWhitespace)
                    else sessionId;
        var branch := prefix + "/" + sessionId + "/" + Slugify(text, toLowercase);
        result == if SafeBranch(prefix) && SafePath(sessionId) then Ok(branch) else Err(InvalidBranch(branch))
  {
    HintIsTaken(branchHint);
    HintIsTaken(title);
    HintIsTaken(prompt);
    if Hint(branchHint).None? {
      SessionBranchExactly(prefix, sessionId, branchHint, title, prompt, toLowercase);
    }
    hide SafeBranch, SafePath, Blank, Slugify;
  }

  lemma HintIsTaken(hint: Option<string>)
    ensures Hint(hint)
         == if hint.Some? && !Blank(hint.value) then Some(Trim(hint.value, IsWhitespace)) else None
  {
    if hint.Some? {
      BlankTrimsAway(hint.value);
    }
  }
}
