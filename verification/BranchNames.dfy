/** Branch names of src/git.rs: the safety check, the slug, and the session branch. */
module BranchNames {
  import opened Prelude

  // ----- characters -----

  predicate IsSlugLetter(c: char) {
    'a' <= c <= 'z' || '0' <= c <= '9'
  }

  predicate IsAlnum(c: char) {
    'A' <= c <= 'Z' || IsSlugLetter(c)
  }

  predicate IsRefChar(c: char) {
    IsAlnum(c) || c == '.' || c == '_' || c == '/' || c == '-'
  }

  /** Unicode White_Space, as `str::trim` uses it. */
  predicate IsWhitespace(c: char) {
    || '\U{0009}' <= c <= '\U{000D}' || c == ' ' || c == '\U{0085}' || c == '\U{00A0}' || c == '\U{1680}'
    || '\U{2000}' <= c <= '\U{200A}' || c == '\U{2028}' || c == '\U{2029}' || c == '\U{202F}'
    || c == '\U{205F}' || c == '\U{3000}'
  }

  // ----- strings -----

  ghost predicate Contains(s: string, part: string) {
    exists i: nat :: OccursAt(s, part, i)
  }

  predicate OccursAt(s: string, part: string, i: nat) {
    i + |part| <= |s| && s[i..i + |part|] == part
  }

  predicate EndsWith(s: string, suffix: string) {
    |suffix| <= |s| && s[|s| - |suffix|..] == suffix
  }

  /** `str::split('/')`. */
  function Split(s: string): (parts: seq<string>)
    ensures |parts| > 0
  {
    if s == "" then [""]
    else if s[0] == '/' then [""] + Split(s[1..])
    else var rest := Split(s[1..]); [[s[0]] + rest[0]] + rest[1..]
  }

  function TrimStart(s: string, drop: char -> bool): string {
    if s == "" then "" else if drop(s[0]) then TrimStart(s[1..], drop) else s
  }

  function TrimEnd(s: string, drop: char -> bool): string {
    if s == "" then ""
    else if drop(s[|s| - 1]) then TrimEnd(s[..|s| - 1], drop)
    else s
  }

  function Trim(s: string, drop: char -> bool): string {
    TrimEnd(TrimStart(s, drop), drop)
  }

  // ----- assert_safe_branch -----

  /** `^[A-Za-z0-9][A-Za-z0-9._/-]*$`. */
  predicate MatchesRefPattern(s: string) {
    && s != ""
    && IsAlnum(s[0])
    && forall i :: 0 <= i < |s| ==> IsRefChar(s[i])
  }

  predicate UnsafePart(p: string) {
    p == "" || p == "." || p == ".." || EndsWith(p, ".lock")
  }

  /** `assert_safe_branch`, condition by condition. */
  ghost predicate SafeBranch(branch: string) {
    && MatchesRefPattern(branch)
    && !("-" <= branch)
    && !("/" <= branch)
    && !EndsWith(branch, "/")
    && !EndsWith(branch, ".lock")
    && !Contains(branch, "..")
    && !Contains(branch, "//")
    && !Contains(branch, "@{")
    && !Contains(branch, "\\")
    && forall p :: p in Split(branch) ==> !UnsafePart(p)
  }

  datatype GitError = InvalidBranch(branch: string)

  ghost function AssertSafeBranch(branch: string): Result<string, GitError> {
    if SafeBranch(branch) then Ok(branch) else Err(InvalidBranch(branch))
  }

  // ----- slugify_branch_fragment -----

  const DASH: char -> bool := c => c == '-'

  /** `[^a-z0-9]+` replaced by "-"; `inRun` says the previous character was replaced. */
  function ReplaceRuns(s: string, inRun: bool): string {
    if s == "" then ""
    else if IsSlugLetter(s[0]) then [s[0]] + ReplaceRuns(s[1..], false)
    else (if inRun then "" else "-") + ReplaceRuns(s[1..], true)
  }

  /** `-{2,}` replaced by "-". */
  function SqueezeDashes(s: string): string {
    if |s| < 2 then s
    else if s[0] == '-' && s[1] == '-' then SqueezeDashes(s[1..])
    else [s[0]] + SqueezeDashes(s[1..])
  }

  function Take(s: string, n: nat): string {
    if |s| <= n then s else s[..n]
  }

  /** The slug of a title already lower-cased. */
  function SlugOfLower(lower: string): string {
    var s := Take(SqueezeDashes(Trim(ReplaceRuns(lower, false), DASH)), 80);
    if s == "" then "thread" else s
  }

  /** `to_lowercase` is a library operation on Unicode text: any function may stand for it. */
  function Slugify(value: string, toLowercase: string -> string): string {
    SlugOfLower(toLowercase(value))
  }

  // ----- session_branch -----

  /** `.map(str::trim).filter(|s| !s.is_empty())`. */
  function Hint(hint: Option<string>): Option<string> {
    if hint.None? then None
    else
      var s := Trim(hint.value, IsWhitespace);
      if s == "" then None else Some(s)
  }

  function SessionTitle(sessionId: string, title: Option<string>, prompt: Option<string>): string {
    if Hint(title).Some? then Hint(title).value
    else if Hint(prompt).Some? then Hint(prompt).value
    else sessionId
  }

  ghost function SessionBranch(prefix: string, sessionId: string, branchHint: Option<string>,
                               title: Option<string>, prompt: Option<string>,
                               toLowercase: string -> string): Result<string, GitError>
  {
    if Hint(branchHint).Some? then AssertSafeBranch(Hint(branchHint).value)
    else
      var fragment := Slugify(SessionTitle(sessionId, title, prompt), toLowercase);
      AssertSafeBranch(prefix + "/" + sessionId + "/" + fragment)
  }

  // ----- what the check amounts to -----

  /** A path whose parts are all acceptable; what may stand after a slash. */
  ghost predicate SafePath(s: string) {
    && (forall i :: 0 <= i < |s| ==> IsRefChar(s[i]))
    && !Contains(s, "..")
    && forall p :: p in Split(s) ==> !UnsafePart(p)
  }

  lemma SplitStep(s: string)
    ensures Split("") == [""]
    ensures s != "" ==>
              var rest := Split(s[1..]);
              Split(s) == if s[0] == '/' then [""] + rest else [[s[0]] + rest[0]] + rest[1..]
  {
  }

  lemma InFront(first: string, x: seq<string>, y: seq<string>)
    ensures [first] + (x + y) == [first] + x + y
  {
  }

  lemma OntoFirst(c: char, x: seq<string>, y: seq<string>)
    requires x != []
    ensures [[c] + (x + y)[0]] + (x + y)[1..] == [[c] + x[0]] + x[1..] + y
  {
    assert (x + y)[1..] == x[1..] + y;
    InFront([c] + x[0], x[1..], y);
  }

  lemma {:induction false} SplitConcat(a: string, b: string)
    ensures Split(a + "/" + b) == Split(a) + Split(b)
  {
    hide Split;
    var s := a + "/" + b;
    SplitStep(s);
    SplitStep(a);
    if a == "" {
      assert s[0] == '/' && s[1..] == b;
    } else {
      SplitConcat(a[1..], b);
      assert s[0] == a[0] && s[1..] == a[1..] + "/" + b;
      if a[0] == '/' {
        InFront("", Split(a[1..]), Split(b));
      } else {
        OntoFirst(a[0], Split(a[1..]), Split(b));
      }
    }
  }

  /** The last part is what follows the last slash. */
  lemma {:induction false} LastPart(s: string) returns (k: nat)
    ensures k <= |s| && Split(s)[|Split(s)| - 1] == s[k..]
    ensures if k == 0 then |Split(s)| == 1 else s[k - 1] == '/' && |Split(s)| > 1
  {
    if s == "" {
      k := 0;
    } else {
      var k' := LastPart(s[1..]);
      k := if k' == 0 && s[0] != '/' then 0 else k' + 1;
    }
  }

  lemma EmptyPartOfDoubleSlash(s: string)
    requires Contains(s, "//")
    ensures "" in Split(s)
  {
    var i: nat :| OccursAt(s, "//", i);
    var tail := s[i + 2..];
    assert s[i..i + 2] == "//";
    assert s == s[..i] + "/" + ("" + "/" + tail);
    SplitConcat(s[..i], "" + "/" + tail);
    SplitConcat("", tail);
    assert "" in Split("");
  }

  lemma EmptyPartOfOuterSlash(s: string)
    requires "/" <= s || EndsWith(s, "/")
    ensures "" in Split(s)
  {
    assert "" in Split("");
    if "/" <= s {
      assert s == "" + "/" + s[1..];
      SplitConcat("", s[1..]);
    } else {
      assert s == s[..|s| - 1] + "/" + "";
      SplitConcat(s[..|s| - 1], "");
    }
  }

  lemma LockedLastPart(s: string)
    requires EndsWith(s, ".lock")
    ensures exists p :: p in Split(s) && EndsWith(p, ".lock")
  {
    var k := LastPart(s);
    var from := |s| - 5;
    forall i | from <= i < |s| ensures s[i] != '/' {
      assert s[i] == s[from..][i - from] == ".lock"[i - from];
    }
    assert k <= from;
    assert s[k..][|s| - k - 5..] == s[|s| - 5..];
    assert Split(s)[|Split(s)| - 1] in Split(s);
  }

  lemma OccurrenceHasItsCharacters(s: string, part: string, c: char)
    requires Contains(s, part) && c in part
    ensures c in s
  {
    var i: nat :| OccursAt(s, part, i);
    var j :| 0 <= j < |part| && part[j] == c;
    assert s[i + j] == s[i..i + |part|][j];
  }

  /** The ten conditions of `assert_safe_branch` amount to two: start alphanumeric, and
      be a path of acceptable parts. */
  lemma SafeBranchIsASafePath(s: string)
    ensures SafeBranch(s) <==> s != "" && IsAlnum(s[0]) && SafePath(s)
  {
    if s != "" && IsAlnum(s[0]) && SafePath(s) {
      assert !("/" <= s) && !EndsWith(s, "/") by {
        if "/" <= s || EndsWith(s, "/") {
          EmptyPartOfOuterSlash(s);
        }
      }
      assert !EndsWith(s, ".lock") by {
        if EndsWith(s, ".lock") {
          LockedLastPart(s);
        }
      }
      assert !Contains(s, "//") by {
        if Contains(s, "//") {
          EmptyPartOfDoubleSlash(s);
        }
      }
      assert !Contains(s, "@{") by {
        if Contains(s, "@{") {
          assert "@{"[0] == '@';
          OccurrenceHasItsCharacters(s, "@{", '@');
        }
      }
      assert !Contains(s, "\\") by {
        if Contains(s, "\\") {
          assert "\\"[0] == '\\';
          OccurrenceHasItsCharacters(s, "\\", '\\');
        }
      }
    }
  }

  lemma DoubleDotAcrossASlash(a: string, b: string)
    ensures Contains(a + "/" + b, "..") <==> Contains(a, "..") || Contains(b, "..")
  {
    var s := a + "/" + b;
    if Contains(s, "..") {
      var i: nat :| OccursAt(s, "..", i);
      assert s[i..i + 2] == "..";
      assert s[i] == '.' && s[i + 1] == '.' && s[|a|] == '/';
      if i < |a| {
        assert a[i..i + 2] == s[i..i + 2];
        assert OccursAt(a, "..", i);
      } else {
        assert b[i - |a| - 1..i - |a| + 1] == s[i..i + 2];
        assert OccursAt(b, "..", i - |a| - 1);
      }
    }
    if Contains(a, "..") {
      var i: nat :| OccursAt(a, "..", i);
      assert s[i..i + 2] == a[i..i + 2];
      assert OccursAt(s, "..", i);
    }
    if Contains(b, "..") {
      var i: nat :| OccursAt(b, "..", i);
      assert s[|a| + 1 + i..|a| + 1 + i + 2] == b[i..i + 2];
      assert OccursAt(s, "..", |a| + 1 + i);
    }
  }

  /** Joining with a slash is safe exactly when both sides are. */
  lemma SafePathsJoin(a: string, b: string)
    ensures SafePath(a + "/" + b) <==> SafePath(a) && SafePath(b)
  {
    hide Split, Contains, UnsafePart;
    SplitConcat(a, b);
    DoubleDotAcrossASlash(a, b);
    var s := a + "/" + b;
    if SafePath(s) {
      forall i | 0 <= i < |a| ensures IsRefChar(a[i]) {
        assert IsRefChar(s[i]);
      }
      forall i | 0 <= i < |b| ensures IsRefChar(b[i]) {
        assert IsRefChar(s[|a| + 1 + i]);
      }
    }
  }

  // ----- what the slug is -----

  /** The leading run of slug letters. */
  function FirstWord(s: string): (w: string)
    ensures |w| <= |s| && s[..|w|] == w
    ensures forall i :: 0 <= i < |w| ==> IsSlugLetter(w[i])
    ensures |w| < |s| ==> !IsSlugLetter(s[|w|])
  {
    if s == "" || !IsSlugLetter(s[0]) then "" else [s[0]] + FirstWord(s[1..])
  }

  /** The maximal runs of slug letters, in order. */
  function Words(s: string): (words: seq<string>)
    ensures forall w :: w in words ==> w != "" && forall i :: 0 <= i < |w| ==> IsSlugLetter(w[i])
    decreases |s|
  {
    if s == "" then []
    else if IsSlugLetter(s[0]) then
      var w := FirstWord(s);
      [w] + Words(s[|w|..])
    else Words(s[1..])
  }

  function Join(words: seq<string>): string {
    if |words| == 0 then ""
    else if |words| == 1 then words[0]
    else words[0] + "-" + Join(words[1..])
  }

  /** The slug as its documentation reads: the words of the lower-cased title joined by
      dashes, cut at eighty characters, or "thread" when there are none. */
  function SlugSpec(lower: string): string {
    if Words(lower) == [] then "thread" else Take(Join(Words(lower)), 80)
  }

  lemma {:induction false} ReplaceRunsOfWord(s: string, inRun: bool)
    requires s != "" && IsSlugLetter(s[0])
    ensures ReplaceRuns(s, inRun) == FirstWord(s) + ReplaceRuns(s[|FirstWord(s)|..], false)
  {
    if |s| > 1 && IsSlugLetter(s[1]) {
      ReplaceRunsOfWord(s[1..], false);
      assert s[1..][|FirstWord(s[1..])|..] == s[|FirstWord(s)|..];
    } else {
      assert FirstWord(s[1..]) == "";
    }
  }

  /** Inside a replaced run nothing leads, and trimming the end leaves the joined words. */
  lemma {:induction false} TrimmedRunsAreJoinedWords(s: string)
    ensures
      var replaced := ReplaceRuns(s, true);
      && TrimEnd(replaced, DASH) == Join(Words(s))
      && (replaced == "" <==> Words(s) == [])
      && (replaced != "" ==> replaced[0] != '-' && Join(Words(s)) != "")
    decreases |s|, 1
  {
    if s == "" {
    } else if !IsSlugLetter(s[0]) {
      TrimmedRunsAreJoinedWords(s[1..]);
      assert "" + ReplaceRuns(s[1..], true) == ReplaceRuns(s[1..], true);
    } else {
      StartsWithAWord(s);
    }
  }

  lemma {:induction false} StartsWithAWord(s: string)
    requires s != "" && IsSlugLetter(s[0])
    ensures
      var replaced := ReplaceRuns(s, true);
      && TrimEnd(replaced, DASH) == Join(Words(s))
      && replaced != "" && replaced[0] != '-' && Words(s) != [] && Join(Words(s)) != ""
    decreases |s|, 0
  {
    var w := FirstWord(s);
    var rest := s[|w|..];
    ReplaceRunsOfWord(s, true);
    assert w != "" && w[0] == s[0];
    if rest == "" {
      assert ReplaceRuns(s, true) == w && Words(s) == [w] by {
        assert w + "" == w && Words(rest) == [];
      }
      hide ReplaceRuns, TrimEnd, Words;
      TrimEndKeepsLetters(w);
    } else {
      assert ReplaceRuns(rest, false) == "-" + ReplaceRuns(rest[1..], true);
      assert Words(s) == [w] + Words(rest[1..]) by {
        assert Words(rest) == Words(rest[1..]);
      }
      hide ReplaceRuns, TrimEnd, Words;
      TrimmedRunsAreJoinedWords(rest[1..]);
      WordThenDash(w, ReplaceRuns(rest[1..], true), Words(rest[1..]));
      assert ([w] + Words(rest[1..]))[0] == w;
    }
  }

  lemma WordThenDash(w: string, tail: string, words: seq<string>)
    requires w != "" && forall i :: 0 <= i < |w| ==> IsSlugLetter(w[i])
    requires TrimEnd(tail, DASH) == Join(words)
    requires tail == "" <==> words == []
    requires tail != "" ==> Join(words) != ""
    ensures TrimEnd(w + ("-" + tail), DASH) == Join([w] + words)
  {
    assert ([w] + words)[1..] == words;
    if tail == "" {
      assert w + ("-" + tail) == w + "-" && (w + "-")[..|w|] == w;
      TrimEndKeepsLetters(w);
    } else {
      assert w + ("-" + tail) == (w + "-") + tail;
      TrimEndOfConcat(w + "-", tail);
    }
  }

  lemma TrimEndKeepsLetters(w: string)
    requires w != "" && forall i :: 0 <= i < |w| ==> IsSlugLetter(w[i])
    ensures TrimEnd(w, DASH) == w
  {
  }

  lemma {:induction false} TrimEndOfConcat(a: string, b: string)
    requires TrimEnd(b, DASH) != ""
    ensures TrimEnd(a + b, DASH) == a + TrimEnd(b, DASH)
  {
    if b[|b| - 1] == '-' {
      TrimEndOfConcat(a, b[..|b| - 1]);
      assert (a + b)[..|a + b| - 1] == a + b[..|b| - 1];
    }
  }

  lemma TrimmedSlug(s: string)
    ensures Trim(ReplaceRuns(s, false), DASH) == Join(Words(s))
  {
    TrimmedRunsAreJoinedWords(s);
    if s != "" && !IsSlugLetter(s[0]) {
      var tail := ReplaceRuns(s[1..], true);
      assert "" + tail == tail && ("-" + tail)[1..] == tail;
      assert TrimStart("-" + tail, DASH) == TrimStart(tail, DASH) == tail;
    }
  }

  ghost predicate NoDoubleDash(s: string) {
    forall i :: 0 <= i < |s| - 1 ==> !(s[i] == '-' && s[i + 1] == '-')
  }

  lemma {:induction false} NothingToSqueeze(s: string)
    requires NoDoubleDash(s)
    ensures SqueezeDashes(s) == s
  {
    if |s| >= 2 {
      assert !(s[0] == '-' && s[0 + 1] == '-');
      forall i | 0 <= i < |s[1..]| - 1 ensures !(s[1..][i] == '-' && s[1..][i + 1] == '-') {
        assert !(s[i + 1] == '-' && s[i + 1 + 1] == '-');
      }
      NothingToSqueeze(s[1..]);
    }
  }

  predicate IsSlugChar(c: char) {
    IsSlugLetter(c) || c == '-'
  }

  lemma {:induction false} JoinedWordsShape(words: seq<string>)
    requires forall w :: w in words ==> w != "" && forall i :: 0 <= i < |w| ==> IsSlugLetter(w[i])
    ensures NoDoubleDash(Join(words))
    ensures forall i :: 0 <= i < |Join(words)| ==> IsSlugChar(Join(words)[i])
    ensures words != [] ==> Join(words) != "" && IsSlugLetter(Join(words)[0])
  {
    if |words| > 1 {
      JoinedWordsShape(words[1..]);
      assert words[0] in words && words[1..][0] in words;
    } else if |words| == 1 {
      assert words[0] in words;
    }
  }

  /** The regular expressions of `slugify_branch_fragment` compute the slug of the words;
      the second one never finds anything to do. */
  lemma SlugIsItsWords(lower: string)
    ensures SlugOfLower(lower) == SlugSpec(lower)
  {
    TrimmedSlug(lower);
    JoinedWordsShape(Words(lower));
    NothingToSqueeze(Join(Words(lower)));
  }

  /** For every title: the slug is non-empty, at most eighty characters, starts with a
      letter or digit, and is over [a-z0-9-] with no "--". */
  lemma SlugShape(value: string, toLowercase: string -> string)
    ensures
      var slug := Slugify(value, toLowercase);
      && 1 <= |slug| <= 80
      && IsSlugLetter(slug[0])
      && (forall i :: 0 <= i < |slug| ==> IsSlugChar(slug[i]))
      && NoDoubleDash(slug)
  {
    var lower := toLowercase(value);
    SlugIsItsWords(lower);
    hide SlugOfLower;
    JoinedWordsShape(Words(lower));
  }

  // ----- the session branch -----

  lemma {:induction false} NoSlashOnePart(s: string)
    requires forall i :: 0 <= i < |s| ==> s[i] != '/'
    ensures Split(s) == [s]
  {
    if s != "" {
      NoSlashOnePart(s[1..]);
      assert [s[0]] + s[1..] == s;
    }
  }

  lemma SlugIsASafePath(value: string, toLowercase: string -> string)
    ensures SafePath(Slugify(value, toLowercase))
  {
    var slug := Slugify(value, toLowercase);
    SlugShape(value, toLowercase);
    hide Slugify;
    assert forall i :: 0 <= i < |slug| ==> IsSlugChar(slug[i]);
    NoSlashOnePart(slug);
    assert !Contains(slug, "..") by {
      assert ".."[0] == '.';
      if Contains(slug, "..") {
        OccurrenceHasItsCharacters(slug, "..", '.');
      }
    }
    assert !EndsWith(slug, ".lock") by {
      if |slug| >= 5 {
        assert slug[|slug| - 5..][0] == slug[|slug| - 5];
      }
    }
  }

  /** Without a usable branch hint, the session branch exists exactly when the prefix is
      a safe branch and the session id a safe path, whatever the title and the prompt;
      it is then the prefix, the session id and a slug, and is itself safe. */
  lemma SessionBranchExactly(prefix: string, sessionId: string, branchHint: Option<string>,
                             title: Option<string>, prompt: Option<string>, toLowercase: string -> string)
    requires Hint(branchHint).None?
    ensures
      var result := SessionBranch(prefix, sessionId, branchHint, title, prompt, toLowercase);
      var branch := prefix + "/" + sessionId + "/"
                    + Slugify(SessionTitle(sessionId, title, prompt), toLowercase);
      && (result.Ok? <==> SafeBranch(prefix) && SafePath(sessionId))
      && (result.Ok? ==> result.value == branch && SafeBranch(branch))
      && (result.Err? ==> result.error == InvalidBranch(branch))
  {
    var fragment := Slugify(SessionTitle(sessionId, title, prompt), toLowercase);
    var branch := prefix + "/" + sessionId + "/" + fragment;
    SlugIsASafePath(SessionTitle(sessionId, title, prompt), toLowercase);
    SafePathsJoin(prefix + "/" + sessionId, fragment);
    SafePathsJoin(prefix, sessionId);
    SafeBranchIsASafePath(branch);
    SafeBranchIsASafePath(prefix);
    hide SafePath, SafeBranch, Slugify;
    if prefix == "" {
      assert branch[0] == '/';
    }
  }

  /** In particular, two names that each pass the check always make a session branch. */
  lemma SessionBranchFromSafeNames(prefix: string, sessionId: string, title: Option<string>,
                                   prompt: Option<string>, toLowercase: string -> string)
    requires SafeBranch(prefix) && SafeBranch(sessionId)
    ensures SessionBranch(prefix, sessionId, None, title, prompt, toLowercase).Ok?
    ensures SafeBranch(SessionBranch(prefix, sessionId, None, title, prompt, toLowercase).value)
  {
    SafeBranchIsASafePath(sessionId);
    SessionBranchExactly(prefix, sessionId, None, title, prompt, toLowercase);
    hide SafePath, SessionBranch;
  }

  /** Hint or no hint, whatever is returned passes the check. */
  lemma EverySessionBranchIsSafe(prefix: string, sessionId: string, branchHint: Option<string>,
                                 title: Option<string>, prompt: Option<string>, toLowercase: string -> string)
    requires SessionBranch(prefix, sessionId, branchHint, title, prompt, toLowercase).Ok?
    ensures SafeBranch(SessionBranch(prefix, sessionId, branchHint, title, prompt, toLowercase).value)
  {
  }
}
