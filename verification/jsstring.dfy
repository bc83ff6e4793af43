/**
  The JavaScript string built-ins the application relies on, stated over
  `string` (a sequence of characters): the white-space class `\s` shared by
  regular expressions and `trim()`, `replace(/\s+/g, " ")`, `split(" ")`,
  `join(" ")`, `includes`, and `replace` with a string pattern (first
  occurrence only).
*/
module JsString {
  import opened Wrappers

  /** The characters that `\s` matches and that `trim()` removes. */
  predicate IsSpace(c: char) {
    || c == ' ' || c == '\t' || c == '\n' || c == '\r'
    || c == '\U{000B}' || c == '\U{000C}' || c == '\U{00A0}' || c == '\U{1680}'
    || ('\U{2000}' <= c <= '\U{200A}')
    || c == '\U{2028}' || c == '\U{2029}' || c == '\U{202F}' || c == '\U{205F}'
    || c == '\U{3000}' || c == '\U{FEFF}'
  }

  /** The characters of `s` that are not white space, in order. */
  function NonSpace(s: string): string {
    if s == [] then [] else (if IsSpace(s[0]) then [] else [s[0]]) + NonSpace(s[1..])
  }

  lemma {:induction false} NonSpaceAppend(a: string, b: string)
    ensures NonSpace(a + b) == NonSpace(a) + NonSpace(b)
  {
    if a != [] {
      var head := if IsSpace(a[0]) then [] else [a[0]];
      assert (a + b)[0] == a[0] && (a + b)[1..] == a[1..] + b;
      NonSpaceAppend(a[1..], b);
      calc {
        NonSpace(a + b);
        head + NonSpace(a[1..] + b);
        head + (NonSpace(a[1..]) + NonSpace(b));
        (head + NonSpace(a[1..])) + NonSpace(b);
        NonSpace(a) + NonSpace(b);
      }
    } else {
      assert a + b == b;
    }
  }

  lemma {:induction false} NonSpaceOfSpaces(s: string)
    requires forall i :: 0 <= i < |s| ==> IsSpace(s[i])
    ensures NonSpace(s) == []
  {
    if s != [] {
      NonSpaceOfSpaces(s[1..]);
    }
  }

  // ---------------------------------------------------------------- trim()

  /** `trimStart()`: drops the leading white space and nothing else. */
  function TrimStart(s: string): (r: string)
    ensures |r| <= |s| && r == s[|s| - |r|..]
    ensures forall i :: 0 <= i < |s| - |r| ==> IsSpace(s[i])
    ensures r == [] || !IsSpace(r[0])
  {
    if s != [] && IsSpace(s[0]) then TrimStart(s[1..]) else s
  }

  /** `trimEnd()`: drops the trailing white space and nothing else. */
  function TrimEnd(s: string): (r: string)
    ensures |r| <= |s| && r == s[..|r|]
    ensures forall i :: |r| <= i < |s| ==> IsSpace(s[i])
    ensures r == [] || !IsSpace(r[|r| - 1])
  {
    if s != [] && IsSpace(s[|s| - 1]) then TrimEnd(s[..|s| - 1]) else s
  }

  /** `trim()`: the longest slice of `s` that neither starts nor ends with white space. */
  function Trim(s: string): string {
    TrimEnd(TrimStart(s))
  }

  /**
    Trimming keeps one contiguous stretch of the text, which neither starts
    nor ends with white space, and loses none of its other characters.
  */
  lemma TrimFacts(s: string)
    ensures |Trim(s)| <= |TrimStart(s)| <= |s|
    ensures Trim(s) == s[|s| - |TrimStart(s)|..][..|Trim(s)|]
    ensures Trim(s) == [] || (!IsSpace(Trim(s)[0]) && !IsSpace(Trim(s)[|Trim(s)| - 1]))
    ensures NonSpace(Trim(s)) == NonSpace(s)
  {
    var t := TrimStart(s);
    TrimStartKeepsText(s);
    TrimEndKeepsText(t);
    var r := TrimEnd(t);
    assert r != [] ==> r[0] == t[0];
  }

  /** Trimming leaves nothing exactly when the text has no character other than white space. */
  lemma TrimBlankIffNoText(s: string)
    ensures Trim(s) == [] <==> NonSpace(s) == []
  {
    TrimFacts(s);
    var r := Trim(s);
    if r != [] {
      assert NonSpace(r) == [r[0]] + NonSpace(r[1..]);
    }
  }

  lemma TrimStartKeepsText(s: string)
    ensures NonSpace(TrimStart(s)) == NonSpace(s)
  {
    var t := TrimStart(s);
    var d := |s| - |t|;
    var p := s[..d];
    assert t == s[d..];
    assert s == p + t;
    assert forall i :: 0 <= i < |p| ==> IsSpace(p[i]);
    NonSpaceOfSpaces(p);
    NonSpaceAppend(p, t);
  }

  lemma TrimEndKeepsText(s: string)
    ensures NonSpace(TrimEnd(s)) == NonSpace(s)
  {
    var r := TrimEnd(s);
    var q := s[|r|..];
    assert r == s[..|r|];
    assert s == r + q;
    assert forall i :: 0 <= i < |q| ==> IsSpace(q[i]);
    NonSpaceOfSpaces(q);
    NonSpaceAppend(r, q);
  }

  // ------------------------------------------------- replace(/\s+/g, " ")

  /**
    `s.replace(/\s+/g, " ")`: every maximal run of white space becomes one
    plain space. The result holds no white space but plain spaces, never two
    spaces in a row, and starts with a space exactly when `s` starts with
    white space.
  */
  function CollapseSpaces(s: string): (r: string)
    ensures forall i :: 0 <= i < |r| && IsSpace(r[i]) ==> r[i] == ' '
    ensures forall i :: 0 <= i < |r| - 1 ==> !(r[i] == ' ' && r[i + 1] == ' ')
    ensures r == [] <==> s == []
    ensures r != [] ==> (r[0] == ' ' <==> IsSpace(s[0]))
    decreases |s|
  {
    if s == [] then []
    else if IsSpace(s[0]) then " " + CollapseSpaces(TrimStart(s[1..]))
    else [s[0]] + CollapseSpaces(s[1..])
  }

  /** Collapsing white space keeps every other character, in order. */
  lemma {:induction false} CollapseKeepsText(s: string)
    ensures NonSpace(CollapseSpaces(s)) == NonSpace(s)
    decreases |s|
  {
    if s == [] {
    } else if IsSpace(s[0]) {
      var t := TrimStart(s[1..]);
      var c := CollapseSpaces(t);
      CollapseKeepsText(t);
      TrimStartKeepsText(s[1..]);
      assert NonSpace(s) == NonSpace(s[1..]);
      assert NonSpace(" ") == [];
      NonSpaceAppend(" ", c);
    } else {
      var c := CollapseSpaces(s[1..]);
      CollapseKeepsText(s[1..]);
      assert NonSpace(s) == [s[0]] + NonSpace(s[1..]);
      assert NonSpace([s[0]]) == [s[0]];
      NonSpaceAppend([s[0]], c);
    }
  }

  /**
    Text in the shape `replace(/\s+/g, " ").trim()` leaves: its only white
    space is single plain spaces strictly between other characters.
  */
  predicate IsCleaned(s: string) {
    && (forall i :: 0 <= i < |s| && IsSpace(s[i]) ==> s[i] == ' ')
    && (forall i :: 0 <= i < |s| - 1 ==> !(s[i] == ' ' && s[i + 1] == ' '))
    && (s == [] || (s[0] != ' ' && s[|s| - 1] != ' '))
  }

  /** Text whose only white space is single plain spaces. */
  predicate SingleSpaced(c: string) {
    && (forall i :: 0 <= i < |c| && IsSpace(c[i]) ==> c[i] == ' ')
    && (forall i :: 0 <= i < |c| - 1 ==> !(c[i] == ' ' && c[i + 1] == ' '))
  }

  /** Trimming single-spaced text leaves cleaned text. */
  lemma TrimOfCollapsed(c: string)
    requires SingleSpaced(c)
    ensures IsCleaned(Trim(c))
  {
    var t := TrimStart(c);
    DropKeepsSpacing(c, |c| - |t|);
    TakeKeepsSpacing(t, |TrimEnd(t)|);
    var r := TrimEnd(t);
    assert r != [] ==> r[0] == t[0];
  }

  /** A suffix of single-spaced text is single-spaced. */
  lemma DropKeepsSpacing(c: string, lo: nat)
    requires lo <= |c| && SingleSpaced(c)
    ensures SingleSpaced(c[lo..])
  {
    var r := c[lo..];
    forall i | 0 <= i < |r| && IsSpace(r[i])
      ensures r[i] == ' '
    {
      assert r[i] == c[lo + i];
    }
    forall i | 0 <= i < |r| - 1
      ensures !(r[i] == ' ' && r[i + 1] == ' ')
    {
      assert r[i] == c[lo + i] && r[i + 1] == c[lo + i + 1];
    }
  }

  /** A prefix of single-spaced text is single-spaced. */
  lemma TakeKeepsSpacing(c: string, hi: nat)
    requires hi <= |c| && SingleSpaced(c)
    ensures SingleSpaced(c[..hi])
  {
    var r := c[..hi];
    forall i | 0 <= i < |r| && IsSpace(r[i])
      ensures r[i] == ' '
    {
      assert r[i] == c[i];
    }
    forall i | 0 <= i < |r| - 1
      ensures !(r[i] == ' ' && r[i + 1] == ' ')
    {
      assert r[i] == c[i] && r[i + 1] == c[i + 1];
    }
  }

  /**
    `text.replace(/\s+/g, " ").trim()`: the words of `s` joined with single
    plain spaces.
  */
  function CleanText(s: string): (r: string)
    ensures IsCleaned(r)
    ensures NonSpace(r) == NonSpace(s)
  {
    var c := CollapseSpaces(s);
    TrimOfCollapsed(c);
    TrimFacts(c);
    CollapseKeepsText(s);
    Trim(c)
  }

  /** Cleaning leaves exactly the words of the text, joined with single plain spaces. */
  lemma CleanTextIsJoinedWords(s: string)
    ensures CleanText(s) == Join(Words(s))
  {
    TrimOfSpacedWords(s);
  }

  /** Trimming the collapsed text leaves exactly the words joined with single spaces. */
  lemma TrimOfSpacedWords(s: string)
    ensures Trim(CollapseSpaces(s)) == Join(Words(s))
  {
    CollapseIsSpacedWords(s);
    if Words(s) == [] {
      TrimBlank(s);
    } else {
      WordsAreWords(s);
      JoinOfWordsIsWordBounded(Words(s));
      TrimPadded(Join(Words(s)), LeadingSpace(s), TrailingSpace(s));
    }
  }

  // ------------------------------------------------------------------ words

  /** A word: a non-empty run of characters none of which is white space. */
  predicate IsWord(w: string) {
    w != [] && forall j :: 0 <= j < |w| ==> !IsSpace(w[j])
  }

  /** `s` starts with a character that is not white space. */
  predicate StartsWord(s: string) {
    s != [] && !IsSpace(s[0])
  }

  /**
    The words of `s`: its maximal runs of non-white-space characters, in
    order. A character that is not white space joins the first word of what
    follows it when that text starts with a word, and is a word of its own
    otherwise.
  */
  function Words(s: string): (ws: seq<string>)
    ensures StartsWord(s) ==> ws != []
    decreases |s|
  {
    if s == [] then []
    else if IsSpace(s[0]) then Words(s[1..])
    else
      var rest := Words(s[1..]);
      if StartsWord(s[1..]) then [[s[0]] + rest[0]] + rest[1..] else [[s[0]]] + rest
  }

  /** Every piece `Words` returns is a word. */
  lemma {:induction false} WordsAreWords(s: string)
    ensures forall i :: 0 <= i < |Words(s)| ==> IsWord(Words(s)[i])
    decreases |s|
  {
    if s != [] {
      var t := s[1..];
      WordsAreWords(t);
      if !IsSpace(s[0]) {
        var rest, ws := Words(t), Words(s);
        if StartsWord(t) {
          var w := [s[0]] + rest[0];
          assert IsWord(rest[0]);
          forall j | 0 <= j < |w|
            ensures !IsSpace(w[j])
          {
            if j > 0 {
              assert w[j] == rest[0][j - 1];
            }
          }
          forall i | 0 <= i < |ws|
            ensures IsWord(ws[i])
          {
            if i > 0 {
              assert ws[i] == rest[i];
            }
          }
        } else {
          forall i | 0 <= i < |ws|
            ensures IsWord(ws[i])
          {
            if i > 0 {
              assert ws[i] == rest[i - 1];
            }
          }
        }
      }
    }
  }

  /** A plain space when `s` starts with white space, else nothing. */
  function LeadingSpace(s: string): string {
    if s != [] && IsSpace(s[0]) then " " else ""
  }

  /** A plain space when `s` ends with white space, else nothing. */
  function TrailingSpace(s: string): string {
    if s != [] && IsSpace(s[|s| - 1]) then " " else ""
  }

  /** Leading white space does not change the words. */
  lemma {:induction false} WordsSkipSpaces(s: string)
    ensures Words(TrimStart(s)) == Words(s)
    decreases |s|
  {
    if s != [] && IsSpace(s[0]) {
      WordsSkipSpaces(s[1..]);
    }
  }

  /** Text that starts with a word collapses to its words joined by single spaces, then one space if it ends in white space. */
  lemma {:induction false} CollapseFromWord(s: string)
    requires StartsWord(s)
    ensures Words(s) != []
    ensures CollapseSpaces(s) == Join(Words(s)) + TrailingSpace(s)
    decreases |s|
  {
    var t := s[1..];
    if t == [] {
      SingleCharWord(s);
    } else if !IsSpace(t[0]) {
      CollapseFromWord(t);
      WordGrows(s);
      JoinExtendHead(s[0], Words(t));
      RegroupCharThenMore(CollapseSpaces(s), [s[0]], CollapseSpaces(t), Join(Words(t)), TrailingSpace(s), Join(Words(s)));
    } else {
      var u := WordThenGap(s);
      if u == [] {
        JoinOne([s[0]]);
      } else {
        CollapseFromWord(u);
        JoinCons([s[0]], Words(u));
        RegroupWordThenMore(CollapseSpaces(s), [s[0]], CollapseSpaces(u), Join(Words(u)), TrailingSpace(s), Join(Words(s)));
      }
    }
  }

  /** A single character that is not white space is one word, and collapses to itself. */
  lemma SingleCharWord(s: string)
    requires |s| == 1 && StartsWord(s)
    ensures Words(s) == [s]
    ensures CollapseSpaces(s) == Join(Words(s)) + TrailingSpace(s)
  {
    assert s[1..] == [] && s == [s[0]];
    assert Words(s[1..]) == [] && CollapseSpaces(s[1..]) == [];
    assert [s] + [] == [s] && s + [] == s;
  }

  /** A word character followed by a word character: it joins the first word of the rest. */
  lemma WordGrows(s: string)
    requires StartsWord(s) && StartsWord(s[1..])
    ensures Words(s) == [[s[0]] + Words(s[1..])[0]] + Words(s[1..])[1..]
    ensures CollapseSpaces(s) == [s[0]] + CollapseSpaces(s[1..])
    ensures TrailingSpace(s) == TrailingSpace(s[1..])
  {
    DropKeepsEnd(s, 1);
  }

  /**
    A word character followed by white space: a word of its own, then the
    words of the text `u` that follows the white-space run.
  */
  lemma WordThenGap(s: string) returns (u: string)
    requires StartsWord(s) && |s| > 1 && IsSpace(s[1])
    ensures |u| < |s| && (u == [] || StartsWord(u))
    ensures u == [] ==> Words(s) == [[s[0]]] && CollapseSpaces(s) == [s[0]] + " " && TrailingSpace(s) == " "
    ensures u != [] ==>
      && Words(s) == [[s[0]]] + Words(u)
      && CollapseSpaces(s) == [s[0]] + (" " + CollapseSpaces(u))
      && TrailingSpace(u) == TrailingSpace(s)
  {
    var t := s[1..];
    u := TrimStart(t[1..]);
    assert Words(t) == Words(u) && CollapseSpaces(t) == " " + CollapseSpaces(u) by {
      CollapseOfSpaceRun(t);
    }
    assert t[1..] == s[2..];
    if u == [] {
      SpaceRunToEnd(s, 1);
      RegroupLoneChar(Words(s), CollapseSpaces(s), s[0], Words(t), CollapseSpaces(t), Words(u), CollapseSpaces(u));
    } else {
      GapKeepsEnd(s, 2);
    }
  }

  lemma RegroupLoneChar(ws: seq<string>, cs: string, c: char, wt: seq<string>, ct: string, wu: seq<string>, cu: string)
    requires ws == [[c]] + wt && cs == [c] + ct && wt == wu && ct == " " + cu && wu == [] && cu == []
    ensures ws == [[c]] && cs == [c] + " "
  {
    assert [[c]] + [] == [[c]];
    assert " " + [] == " ";
  }

  /** Joining a single piece gives that piece. */
  lemma JoinOne(w: string)
    ensures Join([w]) == w
  {
  }

  /** Putting a character in front of the first piece puts it in front of the joined text. */
  lemma JoinExtendHead(c: char, ws: seq<string>)
    requires ws != []
    ensures Join([[c] + ws[0]] + ws[1..]) == [c] + Join(ws)
  {
    var xs := [[c] + ws[0]] + ws[1..];
    if |ws| > 1 {
      assert xs[1..] == ws[1..];
      AppendAssoc([c], ws[0], " " + Join(ws[1..]));
      AppendAssoc([c] + ws[0], " ", Join(ws[1..]));
      AppendAssoc(ws[0], " ", Join(ws[1..]));
    }
  }

  lemma RegroupCharThenMore(cs: string, c: string, ct: string, jt: string, t: string, joined: string)
    requires cs == c + ct && ct == jt + t && joined == c + jt
    ensures cs == joined + t
  {
  }

  /** What is left after dropping `k` characters and then leading white space ends like the whole text. */
  lemma GapKeepsEnd(s: string, k: nat)
    requires k < |s| && TrimStart(s[k..]) != []
    ensures TrailingSpace(TrimStart(s[k..])) == TrailingSpace(s)
  {
    TrimStartKeepsEnd(s[k..]);
    DropKeepsEnd(s, k);
  }

  lemma RegroupWordThenMore(cs: string, w: string, cu: string, j: string, t: string, joined: string)
    requires cs == w + (" " + cu) && cu == j + t && joined == w + " " + j
    ensures cs == joined + t
  {
  }

  lemma RegroupSpaceThenMore(cs: string, cu: string, j: string, t: string)
    requires cs == " " + cu && cu == j + t
    ensures cs == " " + j + t
  {
  }

  /** White space followed by `t`: one space, then whatever `t` without its leading white space collapses to. */
  lemma CollapseOfSpaceRun(s: string)
    requires s != [] && IsSpace(s[0])
    ensures CollapseSpaces(s) == " " + CollapseSpaces(TrimStart(s[1..]))
    ensures Words(s) == Words(TrimStart(s[1..]))
  {
    WordsSkipSpaces(s[1..]);
  }

  /** When only white space follows position `n`, `s` ends with white space. */
  lemma SpaceRunToEnd(s: string, n: nat)
    requires n < |s| && IsSpace(s[n]) && TrimStart(s[n + 1..]) == []
    ensures IsSpace(s[|s| - 1])
  {
    var t := s[n + 1..];
    if |t| > 0 {
      assert IsSpace(t[|t| - 1]);
      assert t[|t| - 1] == s[|s| - 1];
    }
  }

  /** Dropping leading characters keeps how non-empty text ends. */
  lemma DropKeepsEnd(s: string, k: nat)
    requires k < |s|
    ensures TrailingSpace(s[k..]) == TrailingSpace(s)
  {
    assert s[k..][|s| - k - 1] == s[|s| - 1];
  }

  /** Trimming the start keeps how the text ends, unless nothing is left. */
  lemma TrimStartKeepsEnd(s: string)
    requires TrimStart(s) != []
    ensures TrailingSpace(TrimStart(s)) == TrailingSpace(s)
  {
    var r := TrimStart(s);
    assert r[|r| - 1] == s[|s| - 1];
  }

  lemma AppendAssoc(a: string, b: string, c: string)
    ensures a + (b + c) == (a + b) + c
  {
  }

  /** Joining a word in front of at least one more piece puts one space between. */
  lemma JoinCons(w: string, ws: seq<string>)
    requires ws != []
    ensures Join([w] + ws) == w + " " + Join(ws)
  {
    assert ([w] + ws)[1..] == ws;
  }

  /**
    `replace(/\s+/g, " ")` in terms of words: the words of `s` joined with
    single spaces, with one space in front when `s` starts with white space
    and one behind when it ends with white space; text that is all white
    space becomes one space.
  */
  lemma CollapseIsSpacedWords(s: string)
    ensures Words(s) == [] ==> CollapseSpaces(s) == (if s == [] then "" else " ")
    ensures Words(s) != [] ==> CollapseSpaces(s) == LeadingSpace(s) + Join(Words(s)) + TrailingSpace(s)
  {
    if s != [] {
      if IsSpace(s[0]) {
        CollapseFromSpace(s);
      } else {
        CollapseFromWord(s);
        assert LeadingSpace(s) + Join(Words(s)) == Join(Words(s));
      }
    }
  }

  /** Text that starts with white space collapses to one space followed by the collapse of what follows the run. */
  lemma CollapseFromSpace(s: string)
    requires s != [] && IsSpace(s[0])
    ensures Words(s) == [] ==> CollapseSpaces(s) == " "
    ensures Words(s) != [] ==> CollapseSpaces(s) == " " + Join(Words(s)) + TrailingSpace(s)
  {
    var u := TrimStart(s[1..]);
    assert CollapseSpaces(s) == " " + CollapseSpaces(u) && Words(s) == Words(u) by {
      CollapseOfSpaceRun(s);
    }
    if u == [] {
      assert Words(u) == [] && CollapseSpaces(u) == [];
      assert " " + [] == " ";
    } else {
      assert CollapseSpaces(u) == Join(Words(u)) + TrailingSpace(s) && Words(u) != [] by {
        assert |u| < |s|;
        CollapseFromWord(u);
        TrimStartKeepsEnd(s[1..]);
        DropKeepsEnd(s, 1);
      }
      RegroupSpaceThenMore(CollapseSpaces(s), CollapseSpaces(u), Join(Words(s)), TrailingSpace(s));
    }
  }

  /** Words joined with single spaces start and end with a word character. */
  lemma {:induction false} JoinOfWordsIsWordBounded(ws: seq<string>)
    requires |ws| >= 1 && forall i :: 0 <= i < |ws| ==> IsWord(ws[i])
    ensures Join(ws) != [] && !IsSpace(Join(ws)[0]) && !IsSpace(Join(ws)[|Join(ws)| - 1])
  {
    if |ws| > 1 {
      JoinOfWordsIsWordBounded(ws[1..]);
      var j := Join(ws[1..]);
      assert Join(ws) == ws[0] + " " + j;
      assert Join(ws)[0] == ws[0][0];
      assert Join(ws)[|Join(ws)| - 1] == j[|j| - 1];
    } else {
      assert Join(ws) == ws[0];
      assert IsWord(ws[0]);
    }
  }

  /** Trimming removes at most one space on either side of text that starts and ends with a word character. */
  lemma TrimPadded(j: string, lead: string, trail: string)
    requires j != [] && !IsSpace(j[0]) && !IsSpace(j[|j| - 1])
    requires lead == "" || lead == " "
    requires trail == "" || trail == " "
    ensures Trim(lead + j + trail) == j
  {
    var x := j + trail;
    assert lead + j + trail == lead + x;
    TrimStartSpace(lead, x);
    assert x[0] == j[0];
    assert TrimStart(x) == x;
    TrimEndSpace(j, trail);
  }

  lemma TrimStartSpace(lead: string, x: string)
    requires lead == "" || lead == " "
    ensures TrimStart(lead + x) == TrimStart(x)
  {
    if lead == " " {
      var y := lead + x;
      assert y[0] == ' ' && IsSpace(y[0]);
      assert y[1..] == x;
    } else {
      assert lead + x == x;
    }
  }

  lemma TrimEndSpace(j: string, trail: string)
    requires j != [] && !IsSpace(j[|j| - 1])
    requires trail == "" || trail == " "
    ensures TrimEnd(j + trail) == j
  {
    var y := j + trail;
    if trail == " " {
      assert y[|y| - 1] == ' ' && IsSpace(y[|y| - 1]);
      assert y[..|y| - 1] == j;
    } else {
      assert y == j;
    }
    assert TrimEnd(j) == j;
  }

  /** Text without words collapses to at most one space, which trimming removes. */
  lemma TrimBlank(s: string)
    requires Words(s) == []
    ensures Trim(CollapseSpaces(s)) == ""
  {
    var c := CollapseSpaces(s);
    assert c == "" || c == " " by {
      CollapseIsSpacedWords(s);
    }
    TrimOfBlank(c);
  }

  /** Trimming nothing or a single space leaves nothing. */
  lemma TrimOfBlank(c: string)
    requires c == "" || c == " "
    ensures Trim(c) == ""
  {
    if c == " " {
      assert IsSpace(c[0]) && c[1..] == "";
    }
  }

  /** Splitting the cleaned text gives back exactly the words of the original text. */
  lemma SplitCleanText(s: string)
    ensures Words(s) == [] ==> CleanText(s) == "" && Split(CleanText(s)) == [""]
    ensures Words(s) != [] ==> Split(CleanText(s)) == Words(s)
  {
    CleanTextIsJoinedWords(s);
    var ws := Words(s);
    WordsAreWords(s);
    if ws != [] {
      forall i | 0 <= i < |ws|
        ensures ' ' !in ws[i]
      {
        assert IsWord(ws[i]);
      }
      SplitJoin(ws);
    }
  }

  /** The words of each piece, piece after piece. */
  function WordsOfAll(ps: seq<string>): seq<string> {
    if ps == [] then [] else Words(ps[0]) + WordsOfAll(ps[1..])
  }

  /** A space between two texts separates their words and adds none. */
  lemma {:induction false} WordsAroundSpace(a: string, b: string)
    ensures Words(a + " " + b) == Words(a) + Words(b)
    decreases |a|
  {
    var x := a + " " + b;
    if a == [] {
      assert x == " " + b && x[1..] == b;
    } else {
      assert x[0] == a[0] && x[1..] == a[1..] + " " + b;
      WordsAroundSpace(a[1..], b);
      if !IsSpace(a[0]) {
        WordCharBeforeSpace(a, b);
      }
    }
  }

  lemma WordCharBeforeSpace(a: string, b: string)
    requires StartsWord(a)
    requires Words(a[1..] + " " + b) == Words(a[1..]) + Words(b)
    ensures Words(a + " " + b) == Words(a) + Words(b)
  {
    var x := a + " " + b;
    assert x[1..] == a[1..] + " " + b;
    assert StartsWord(x[1..]) <==> StartsWord(a[1..]) by {
      if a[1..] == [] {
        assert x[1..][0] == ' ';
      } else {
        assert x[1..][0] == a[1..][0];
      }
    }
    if StartsWord(a[1..]) {
      WordGrowsBeforeSpace(a, b);
    } else {
      assert Words(x) == [[a[0]]] + (Words(a[1..]) + Words(b));
    }
  }

  lemma WordGrowsBeforeSpace(a: string, b: string)
    requires StartsWord(a) && StartsWord(a[1..])
    requires Words(a[1..] + " " + b) == Words(a[1..]) + Words(b)
    requires StartsWord((a + " " + b)[1..]) && (a + " " + b)[1..] == a[1..] + " " + b
    ensures Words(a + " " + b) == Words(a) + Words(b)
  {
    var x := a + " " + b;
    var y := x[1..];
    assert x[0] == a[0];
    assert Words(x) == [[a[0]] + Words(y)[0]] + Words(y)[1..];
    assert Words(a) == [[a[0]] + Words(a[1..])[0]] + Words(a[1..])[1..];
    GrowHead(a[0], Words(y), Words(a[1..]), Words(b));
  }

  lemma GrowHead(c: char, rest: seq<string>, ra: seq<string>, wb: seq<string>)
    requires ra != [] && rest == ra + wb
    ensures [[c] + rest[0]] + rest[1..] == ([[c] + ra[0]] + ra[1..]) + wb
  {
    assert rest[0] == ra[0] && rest[1..] == ra[1..] + wb;
  }

  /** The words of pages joined with spaces are the words of each page, in page order. */
  lemma {:induction false} WordsOfJoin(ps: seq<string>)
    ensures Words(Join(ps)) == WordsOfAll(ps)
  {
    if |ps| == 1 {
      assert ps[1..] == [];
      assert Words(ps[0]) + [] == Words(ps[0]);
    } else if |ps| > 1 {
      WordsOfJoin(ps[1..]);
      WordsAroundSpace(ps[0], Join(ps[1..]));
    }
  }

  // ------------------------------------------------ split(" ") / join(" ")

  /**
    `s.split(" ")`: the pieces between single plain spaces. There is always
    at least one piece, and no piece holds a space.
  */
  function Split(s: string): (ws: seq<string>)
    ensures |ws| >= 1
    ensures forall i :: 0 <= i < |ws| ==> ' ' !in ws[i]
  {
    if s == [] then [""]
    else
      var rest := Split(s[1..]);
      if s[0] == ' ' then [""] + rest
      else [[s[0]] + rest[0]] + rest[1..]
  }

  /** `ws.join(" ")`. */
  function Join(ws: seq<string>): string {
    if |ws| == 0 then ""
    else if |ws| == 1 then ws[0]
    else ws[0] + " " + Join(ws[1..])
  }

  /** A join whose first piece is non-empty is non-empty. */
  lemma JoinHeadNonEmpty(ws: seq<string>)
    requires |ws| >= 1 && ws[0] != ""
    ensures Join(ws) != ""
  {
    if |ws| > 1 {
      assert |Join(ws)| == |ws[0]| + 1 + |Join(ws[1..])|;
    }
  }

  /** Joining pieces without spaces puts exactly one space between neighbours, and nothing else. */
  lemma {:induction false} JoinSpaceCount(ws: seq<string>)
    requires |ws| >= 1 && forall i :: 0 <= i < |ws| ==> ' ' !in ws[i]
    ensures CountSpaces(Join(ws)) == |ws| - 1
  {
    NoSpaceCount(ws[0]);
    if |ws| > 1 {
      JoinSpaceCount(ws[1..]);
      CountSpacesAppend(ws[0] + " ", Join(ws[1..]));
      CountSpacesAppend(ws[0], " ");
    }
  }

  lemma {:induction false} CountSpacesAppend(a: string, b: string)
    ensures CountSpaces(a + b) == CountSpaces(a) + CountSpaces(b)
  {
    if a != [] {
      assert (a + b)[1..] == a[1..] + b;
      CountSpacesAppend(a[1..], b);
    } else {
      assert a + b == b;
    }
  }

  lemma {:induction false} NoSpaceCount(w: string)
    ensures ' ' !in w ==> CountSpaces(w) == 0
  {
    if w != [] {
      assert ' ' !in w ==> ' ' !in w[1..];
      NoSpaceCount(w[1..]);
    }
  }

  /** The number of plain spaces in `s`. */
  function CountSpaces(s: string): nat {
    if s == [] then 0 else (if s[0] == ' ' then 1 else 0) + CountSpaces(s[1..])
  }

  /** Joining the pieces of a split gives back the original text. */
  lemma {:induction false} JoinSplit(s: string)
    ensures Join(Split(s)) == s
  {
    if s != [] {
      var rest := Split(s[1..]);
      JoinSplit(s[1..]);
      if s[0] == ' ' {
        assert ([""] + rest)[1..] == rest;
      } else if |rest| > 1 {
        assert ([[s[0]] + rest[0]] + rest[1..])[1..] == rest[1..];
      }
    }
  }

  /** Only the plain space separates: there is one more piece than spaces. */
  lemma {:induction false} SplitCount(s: string)
    ensures |Split(s)| == CountSpaces(s) + 1
  {
    if s != [] {
      SplitCount(s[1..]);
    }
  }

  /** Text without a plain space (tabs and newlines included) is a single piece. */
  lemma {:induction false} SplitWithoutSpace(s: string)
    requires ' ' !in s
    ensures Split(s) == [s]
  {
    if s != [] {
      assert ' ' !in s[1..];
      SplitWithoutSpace(s[1..]);
      assert s[0] != ' ';
      assert [s[0]] + s[1..] == s;
    }
  }

  lemma {:induction false} SplitAfterWord(w: string, t: string)
    requires ' ' !in w
    ensures Split(w + " " + t) == [w] + Split(t)
  {
    if w == [] {
      assert ([] + " " + t)[1..] == t;
    } else {
      assert (w + " " + t)[1..] == w[1..] + " " + t;
      assert ' ' !in w[1..];
      SplitAfterWord(w[1..], t);
      assert [w[0]] + w[1..] == w;
    }
  }

  /** Splitting the join of space-free pieces gives back the pieces. */
  lemma {:induction false} SplitJoin(ws: seq<string>)
    requires |ws| >= 1
    requires forall i :: 0 <= i < |ws| ==> ' ' !in ws[i]
    ensures Split(Join(ws)) == ws
  {
    if |ws| == 1 {
      SplitWithoutSpace(ws[0]);
    } else {
      SplitJoin(ws[1..]);
      SplitAfterWord(ws[0], Join(ws[1..]));
    }
  }

  /**
    Cleaned text never yields an empty piece: pieces come only from the
    single spaces between other characters.
  */
  lemma {:induction false} SplitCleanedWordsNonEmpty(s: string)
    requires IsCleaned(s) && s != []
    ensures forall i :: 0 <= i < |Split(s)| ==> Split(s)[i] != []
  {
    SplitTailWordsNonEmpty(s);
  }

  lemma {:induction false} SplitTailWordsNonEmpty(s: string)
    requires forall i :: 0 <= i < |s| - 1 ==> !(s[i] == ' ' && s[i + 1] == ' ')
    requires s == [] || s[|s| - 1] != ' '
    ensures forall i :: 1 <= i < |Split(s)| ==> Split(s)[i] != []
    ensures s != [] && s[0] != ' ' ==> Split(s)[0] != []
  {
    if s != [] {
      var t := s[1..];
      assert forall i :: 0 <= i < |t| - 1 ==> !(t[i] == ' ' && t[i + 1] == ' ') by {
        forall i | 0 <= i < |t| - 1 ensures !(t[i] == ' ' && t[i + 1] == ' ') {
          assert t[i] == s[i + 1] && t[i + 1] == s[i + 2];
        }
      }
      SplitTailWordsNonEmpty(t);
      if s[0] == ' ' {
        assert t != [] && t[0] != ' ' by {
          assert |s| >= 2;
          assert !(s[0] == ' ' && s[1] == ' ');
        }
      }
    }
  }

  // --------------------------------------- includes / replace(first match)

  /** `pat` occurs in `s` starting at index `j`. */
  predicate OccursAt(s: string, pat: string, j: nat) {
    j + |pat| <= |s| && s[j..j + |pat|] == pat
  }

  /** The first index at or after `from` where `pat` occurs in `s`. */
  function IndexOfFrom(s: string, pat: string, from: nat): (r: Option<nat>)
    ensures r.Some? ==> from <= r.value && OccursAt(s, pat, r.value)
    ensures r.Some? ==> forall j :: from <= j < r.value ==> !OccursAt(s, pat, j)
    ensures r.None? ==> forall j :: from <= j ==> !OccursAt(s, pat, j)
    decreases |s| - from
  {
    if from + |pat| > |s| then None
    else if OccursAt(s, pat, from) then Some(from)
    else IndexOfFrom(s, pat, from + 1)
  }

  /** `s.indexOf(pat)`, with `None` for -1. */
  function IndexOf(s: string, pat: string): Option<nat> {
    IndexOfFrom(s, pat, 0)
  }

  /** `s.includes(pat)`: some slice of `s` equals `pat`. */
  function Includes(s: string, pat: string): (b: bool)
    ensures b <==> exists j: nat :: OccursAt(s, pat, j)
  {
    IndexOf(s, pat).Some?
  }

  /**
    `s.replace(pat, rep)` with a string pattern: only the first occurrence
    is replaced, and `s` is returned unchanged when `pat` does not occur.
  */
  function ReplaceFirst(s: string, pat: string, rep: string): (r: string)
    ensures IndexOf(s, pat).None? ==> r == s
    ensures IndexOf(s, pat).Some? ==>
      var k := IndexOf(s, pat).value;
      && s == s[..k] + pat + s[k + |pat|..]
      && r == s[..k] + rep + s[k + |pat|..]
      && forall j :: 0 <= j < k ==> !OccursAt(s, pat, j)
  {
    match IndexOf(s, pat)
    case None => s
    case Some(k) => s[..k] + rep + s[k + |pat|..]
  }
}
