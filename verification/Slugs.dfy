/**
 The slug made from an organization's name. Unicode decomposition is a parameter; all that
 is known of it is that it leaves ASCII text alone.
 */
module Slugs {
  import opened Outcomes
  import opened Text

  const MAX_SLUG_LENGTH: nat := 255

  predicate IsAlnum(c: char) {
    'a' <= c <= 'z' || '0' <= c <= '9'
  }

  predicate IsAscii(s: string) {
    forall i | 0 <= i < |s| :: s[i] < 128 as char
  }

  ghost predicate LeavesAsciiAlone(nfkd: string -> string) {
    forall s | IsAscii(s) :: nfkd(s) == s
  }

  // ----- the steps -----

  /** encode("ascii", "ignore") */
  function KeepAscii(s: string): (r: string)
    ensures IsAscii(r) && (IsAscii(s) ==> r == s)
  {
    if s == "" then "" else (if s[0] < 128 as char then [s[0]] else "") + KeepAscii(s[1..])
  }

  function Lower(c: char): char {
    if 'A' <= c <= 'Z' then c - 'A' + 'a' else c
  }

  function LowerAll(s: string): string {
    seq(|s|, i requires 0 <= i < |s| => Lower(s[i]))
  }

  /** What the slug is made from. */
  function Plain(nfkd: string -> string, name: string): string {
    PlainText(nfkd(name))
  }

  /** The length of the leading run of characters that are, or are not, alphanumeric. */
  function Run(s: string, alnum: bool): (n: nat)
    ensures n <= |s| && (forall i | 0 <= i < n :: IsAlnum(s[i]) == alnum)
    ensures n < |s| ==> IsAlnum(s[n]) != alnum
  {
    if s == "" || IsAlnum(s[0]) != alnum then 0 else 1 + Run(s[1..], alnum)
  }

  /** re.sub("[^a-z0-9]+", "-", s) */
  function Collapse(s: string): string
    decreases |s|
  {
    if s == "" then ""
    else if IsAlnum(s[0]) then [s[0]] + Collapse(s[1..])
    else "-" + Collapse(s[Run(s, false)..])
  }

  function StripLeft(s: string): string {
    if s != "" && s[0] == '-' then StripLeft(s[1..]) else s
  }

  function StripRight(s: string): string {
    if s != "" && s[|s| - 1] == '-' then StripRight(s[..|s| - 1]) else s
  }

  function Truncate(s: string): string {
    if |s| <= MAX_SLUG_LENGTH then s else s[..MAX_SLUG_LENGTH]
  }

  function ToSlug(nfkd: string -> string, name: string): Option<string> {
    var slug := StripRight(Truncate(StripRight(StripLeft(Collapse(Plain(nfkd, name))))));
    if slug == "" then None else Some(slug)
  }

  // ----- the text a slug is made from -----

  const UPPER_CASE := "ABCDEFGHIJKLMNOPQRSTUVWXYZ"
  const LOWER_CASE := "abcdefghijklmnopqrstuvwxyz"

  function PlainText(s: string): string {
    LowerAll(KeepAscii(s))
  }

  /** Case is folded letter by letter. */
  lemma LettersAreFolded(i: nat)
    requires i < 26
    ensures PlainText([UPPER_CASE[i]]) == [LOWER_CASE[i]]
  {
    assert UPPER_CASE[i] == 'A' + i as char && LOWER_CASE[i] == 'a' + i as char;
    assert KeepAscii([UPPER_CASE[i]]) == [UPPER_CASE[i]];
  }

  /** Any other ASCII character stays, and every character beyond ASCII is dropped. */
  lemma OthersStayOrGo(c: char)
    requires c !in UPPER_CASE
    ensures PlainText([c]) == if c < 128 as char then [c] else ""
  {
    UpperCaseLetters(c);
    assert [c][1..] == "";
  }

  /** What a slug is made of besides hyphens. */
  lemma AlnumLetters(c: char)
    ensures IsAlnum(c) <==> c in LOWER_CASE || c in "0123456789"
  {
    Stretch(LOWER_CASE, 'a', c);
    Stretch("0123456789", '0', c);
  }

  lemma UpperCaseLetters(c: char)
    ensures c in UPPER_CASE <==> 'A' <= c <= 'Z'
  {
    if 'A' <= c <= 'Z' {
      var i := (c - 'A') as nat;
      assert UPPER_CASE[i] == 'A' + i as char;
    }
  }

  /** The text is made character by character. */
  lemma {:induction false} PlainTextAppends(s: string, t: string)
    ensures PlainText(s + t) == PlainText(s) + PlainText(t)
  {
    if s == "" {
      assert s + t == t;
    } else {
      assert (s + t)[1..] == s[1..] + t;
      PlainTextAppends(s[1..], t);
      assert KeepAscii(s + t) == KeepAscii(s) + KeepAscii(t) by { KeptAppends(s, t); }
    }
  }

  lemma {:induction false} KeptAppends(s: string, t: string)
    ensures KeepAscii(s + t) == KeepAscii(s) + KeepAscii(t)
  {
    if s == "" {
      assert s + t == t;
    } else {
      assert (s + t)[1..] == s[1..] + t;
      KeptAppends(s[1..], t);
    }
  }

  // ----- what a slug is -----

  /** Runs of [a-z0-9] separated by single hyphens. */
  predicate IsSlugText(s: string) {
    && (forall i | 0 <= i < |s| :: IsAlnum(s[i]) || s[i] == '-')
    && (s != "" ==> s[0] != '-' && s[|s| - 1] != '-')
    && (forall i | 0 <= i < |s| - 1 :: s[i] != '-' || s[i + 1] != '-')
  }

  predicate IsSlug(s: string) {
    1 <= |s| <= 255 && IsSlugText(s)
  }

  /** The maximal alphanumeric runs of a text. */
  function Words(s: string): seq<string>
    decreases |s|
  {
    if s == "" then []
    else if !IsAlnum(s[0]) then Words(s[1..])
    else [s[..Run(s, true)]] + Words(s[Run(s, true)..])
  }

  function Join(ws: seq<string>): string {
    if ws == [] then "" else if |ws| == 1 then ws[0] else ws[0] + "-" + Join(ws[1..])
  }

  // ----- collapsing and stripping joins the words -----

  lemma {:induction false} CollapseRun(s: string)
    ensures Collapse(s) == s[..Run(s, true)] + Collapse(s[Run(s, true)..])
  {
    if s != "" && IsAlnum(s[0]) {
      CollapseRun(s[1..]);
      assert s[1..][Run(s[1..], true)..] == s[Run(s, true)..];
      assert s[..Run(s, true)] == [s[0]] + s[1..][..Run(s[1..], true)];
    } else {
      assert s[0..] == s;
    }
  }

  lemma {:induction false} WordsSkip(s: string)
    ensures Words(s) == Words(s[Run(s, false)..])
  {
    if s != "" && !IsAlnum(s[0]) {
      WordsSkip(s[1..]);
      assert s[1..][Run(s[1..], false)..] == s[Run(s, false)..];
    } else {
      assert s[0..] == s;
    }
  }

  lemma {:induction false} StripRightAppends(a: string, b: string)
    requires StripRight(b) != ""
    ensures StripRight(a + b) == a + StripRight(b)
  {
    if b[|b| - 1] == '-' {
      assert (a + b)[..|a + b| - 1] == a + b[..|b| - 1];
      StripRightAppends(a, b[..|b| - 1]);
    }
  }

  lemma JoinHead(w: string, ws: seq<string>)
    ensures Join([w] + ws) == if ws == [] then w else w + "-" + Join(ws)
  {
    assert ([w] + ws)[1..] == ws;
  }

  /** A text that starts with a word: that word, a gap, and what follows from the next word on. */
  lemma FirstWord(s: string) returns (word: string, rest: string)
    requires s != "" && IsAlnum(s[0])
    ensures word != "" && word[|word| - 1] != '-' && |rest| < |s| && (rest == "" || IsAlnum(rest[0]))
    ensures Words(s) == [word] + Words(rest)
    ensures Collapse(s) == word + Collapse(rest) || Collapse(s) == word + ("-" + Collapse(rest))
    ensures rest != "" ==> Collapse(s) == word + ("-" + Collapse(rest))
  {
    var n := Run(s, true);
    var tail := s[n..];
    word := s[..n];
    rest := tail[Run(tail, false)..];
    CollapseRun(s);
    WordsSkip(tail);
    if tail == "" {
      assert rest == tail;
    } else {
      assert Collapse(tail) == "-" + Collapse(rest);
    }
  }

  lemma {:induction false} JoinedWords(s: string)
    requires s == "" || IsAlnum(s[0])
    ensures StripRight(Collapse(s)) == Join(Words(s))
    ensures s != "" ==> Words(s) != [] && Join(Words(s)) != ""
    decreases |s|
  {
    hide Words, Collapse, Join, Run;
    if s == "" {
      NothingToJoin();
    } else {
      var word, rest := FirstWord(s);
      JoinHead(word, Words(rest));
      JoinedWords(rest);
      if rest == "" {
        NothingToJoin();
        assert word + "" == word && (word + "-")[..|word|] == word;
        assert word + ("-" + "") == word + "-";
      } else {
        StripRightAppends(word + "-", Collapse(rest));
        assert word + ("-" + Collapse(rest)) == (word + "-") + Collapse(rest);
      }
    }
  }

  lemma NothingToJoin()
    ensures Words("") == [] && Collapse("") == "" && Join([]) == ""
  {
  }

  /** Collapsing other characters and stripping the ends is joining the words with hyphens. */
  lemma CollapseJoinsWords(s: string)
    ensures StripRight(StripLeft(Collapse(s))) == Join(Words(s))
  {
    if s == "" || IsAlnum(s[0]) {
      JoinedWords(s);
    } else {
      var rest := s[Run(s, false)..];
      WordsSkip(s);
      JoinedWords(rest);
      assert StripLeft("-" + Collapse(rest)) == Collapse(rest) by {
        assert ("-" + Collapse(rest))[1..] == Collapse(rest);
        assert rest != "" ==> Collapse(rest)[0] == rest[0];
      }
    }
  }

  predicate AllAlnum(s: string) {
    forall i | 0 <= i < |s| :: IsAlnum(s[i])
  }

  lemma {:induction false} WordsAreRuns(s: string)
    ensures forall i | 0 <= i < |Words(s)| :: Words(s)[i] != "" && AllAlnum(Words(s)[i])
    ensures Words(s) == [] <==> forall i | 0 <= i < |s| :: !IsAlnum(s[i])
    decreases |s|
  {
    if s != "" {
      if IsAlnum(s[0]) {
        WordsAreRuns(s[Run(s, true)..]);
      } else {
        WordsAreRuns(s[1..]);
        assert forall i | 0 < i < |s| :: s[i] == s[1..][i - 1];
      }
    }
  }

  lemma {:induction false} JoinIsSlugText(ws: seq<string>)
    requires forall i | 0 <= i < |ws| :: ws[i] != "" && AllAlnum(ws[i])
    ensures IsSlugText(Join(ws)) && (Join(ws) == "" <==> ws == [])
  {
    if |ws| > 1 {
      JoinIsSlugText(ws[1..]);
      var head, tail := ws[0], Join(ws[1..]);
      var s := head + "-" + tail;
      assert forall i | 0 <= i < |head| :: s[i] == head[i];
      assert forall i | 0 <= i < |tail| :: s[|head| + 1 + i] == tail[i];
    }
  }

  lemma {:induction false} StrippedPrefix(s: string, n: nat)
    requires IsSlugText(s) && n <= |s|
    ensures IsSlugText(StripRight(s[..n])) && |StripRight(s[..n])| <= n
    ensures n > 0 ==> StripRight(s[..n]) != ""
  {
    if n > 0 && s[n - 1] == '-' {
      assert s[..n][..n - 1] == s[..n - 1];
      StrippedPrefix(s, n - 1);
    }
  }

  /**
   The slug is the name's words joined by hyphens, cut at 255 characters, and less a hyphen
   the cut may have left at the end.
   */
  lemma SlugJoinsWords(nfkd: string -> string, name: string)
    ensures var joined := Join(Words(Plain(nfkd, name)));
            ToSlug(nfkd, name) == (if joined == "" then None else Some(StripRight(Truncate(joined))))
    ensures var joined := Join(Words(Plain(nfkd, name)));
            0 < |joined| <= 255 ==> ToSlug(nfkd, name) == Some(joined)
  {
    hide Words, Join, Collapse, StripLeft, IsSlugText;
    var plain := Plain(nfkd, name);
    CollapseJoinsWords(plain);
    WordsAreRuns(plain);
    JoinIsSlugText(Words(plain));
    var joined := Join(Words(plain));
    if |joined| > MAX_SLUG_LENGTH {
      StrippedPrefix(joined, MAX_SLUG_LENGTH);
    } else {
      assert joined[..|joined|] == joined;
      assert joined != "" ==> joined[|joined| - 1] != '-' by { EndsInWord(joined); }
    }
  }

  lemma EndsInWord(s: string)
    requires IsSlugText(s)
    ensures s != "" ==> s[|s| - 1] != '-'
  {
  }

  /** Every slug is in normal form, even after truncation. */
  lemma SlugsAreNormal(nfkd: string -> string, name: string)
    requires ToSlug(nfkd, name).Some?
    ensures IsSlug(ToSlug(nfkd, name).value)
  {
    hide Words, Join, Collapse, StripLeft, StripRight, IsSlugText, ToSlug;
    var plain := Plain(nfkd, name);
    SlugJoinsWords(nfkd, name);
    WordsAreRuns(plain);
    JoinIsSlugText(Words(plain));
    var joined := Join(Words(plain));
    if |joined| > MAX_SLUG_LENGTH {
      StrippedPrefix(joined, MAX_SLUG_LENGTH);
    } else {
      assert joined[..|joined|] == joined;
      StrippedPrefix(joined, |joined|);
    }
  }

  /** There is no slug exactly when no alphanumeric character survives. */
  lemma NoSlugWithoutAlnum(nfkd: string -> string, name: string)
    ensures ToSlug(nfkd, name).None? <==>
              forall i | 0 <= i < |Plain(nfkd, name)| :: !IsAlnum(Plain(nfkd, name)[i])
  {
    hide Words, Join, IsSlugText, ToSlug;
    SlugJoinsWords(nfkd, name);
    WordsAreRuns(Plain(nfkd, name));
    JoinIsSlugText(Words(Plain(nfkd, name)));
  }

  // ----- slugs are fixed points -----

  lemma {:induction false} SlugTextCollapses(s: string)
    requires (forall i | 0 <= i < |s| :: IsAlnum(s[i]) || s[i] == '-')
    requires forall i | 0 <= i < |s| - 1 :: s[i] != '-' || s[i + 1] != '-'
    ensures Collapse(s) == s
    decreases |s|
  {
    if s != "" {
      var rest := s[1..];
      assert forall i | 0 <= i < |rest| :: rest[i] == s[i + 1];
      SlugTextCollapses(rest);
      if !IsAlnum(s[0]) {
        assert Run(rest, false) == 0;
        assert s[Run(s, false)..] == rest;
      }
      assert s == [s[0]] + rest;
    }
  }

  /** A text is its own slug exactly when it is in normal form; so making slugs is idempotent. */
  lemma SlugsAreFixedPoints(nfkd: string -> string, s: string)
    requires LeavesAsciiAlone(nfkd)
    ensures ToSlug(nfkd, s) == Some(s) <==> IsSlug(s)
  {
    if IsSlug(s) {
      assert IsAscii(s);
      assert KeepAscii(s) == s && LowerAll(s) == s;
      SlugTextCollapses(s);
      assert Truncate(s) == s;
    } else if ToSlug(nfkd, s).Some? {
      SlugsAreNormal(nfkd, s);
    }
  }
}
