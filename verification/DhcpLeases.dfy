/** The DHCP lease table: the tokenizer, host names, the reading of lease blocks, and the list
    of leases that keeps the last block of each name. */
module DhcpLeases {
  import opened Ascii
  import opened Wrappers
  import opened LeaseTime

  const MAXTOK := 64
  const MAXDNAME := 1025
  const MAXLABEL := 63

  /** The size of the array behind the host name; next_token is told MAXDNAME for it. */
  const NAMEBUFF := 256

  // ----- C strings -----

  predicate NulFree(s: string) { forall i | 0 <= i < |s| :: s[i] != '\0' }

  type CStr = s: string | NulFree(s) witness ""

  /** What a C string function sees of a buffer. */
  function UpToNul(s: string): CStr {
    if s == "" || s[0] == '\0' then "" else [s[0]] + UpToNul(s[1..])
  }

  predicate StartsWith(s: CStr, c: char) { s != "" && s[0] == c }

  // ----- tokens -----

  /** The byte that the end of the file leaves in the buffer when it ends a comment. */
  const EOF_BYTE := 255 as char

  /** The character that ends a comment, and what follows it. */
  function CommentEnd(text: string): (r: (char, string))
    ensures |r.1| <= |text|
  {
    if text == "" then (EOF_BYTE, "")
    else if text[0] == '\n' then ('\n', text[1..])
    else CommentEnd(text[1..])
  }

  /** The next character, with a comment read as its end. */
  function Next(text: string): (r: (char, string))
    requires text != ""
    ensures |r.1| < |text|
  {
    if text[0] == '#' then CommentEnd(text[1..]) else (text[0], text[1..])
  }

  predicate Delimits(c: char, quoted: bool) {
    c == '\t' || c == '\n' || (!quoted && (c == ' ' || c == ';'))
  }

  /** Collects characters up to the next delimiter; those that do not fit are dropped. */
  function Collect(text: string, size: nat, acc: string, quoted: bool): (r: (string, string))
    ensures |r.1| <= |text| && (text != "" ==> |r.1| < |text|)
    decreases |text|
  {
    if text == "" then (acc, "")
    else
      var (c, rest) := Next(text);
      var quoted' := quoted != (c == '"');
      if Delimits(c, quoted') then
        if acc != "" then (acc, rest) else Collect(rest, size, acc, quoted')
      else
        Collect(rest, size, if c != '"' && |acc| < size - 1 then acc + [c] else acc, quoted')
  }

  /** The next token, none at the end of the file, and what follows it. */
  function Token(text: string, size: nat): (r: (Option<CStr>, string))
    ensures |r.1| <= |text| && (r.0.Some? ==> |r.1| < |text|)
  {
    var (acc, rest) := Collect(text, size, "", false);
    (if acc == "" then None else Some(UpToNul(acc)), rest)
  }

  /** How many characters next_token stores, the terminator not counted. */
  ghost function Width(text: string, size: nat): nat {
    |Collect(text, size, "", false).0|
  }

  /** It never stores more than it was told, with its terminator. */
  lemma {:induction false} CollectBounded(text: string, size: nat, acc: string, quoted: bool)
    requires |acc| < size
    ensures |Collect(text, size, acc, quoted).0| < size
    decreases |text|
  {
    if text != "" {
      var (c, rest) := Next(text);
      var quoted' := quoted != (c == '"');
      if Delimits(c, quoted') {
        if acc == "" { CollectBounded(rest, size, acc, quoted'); }
      } else {
        CollectBounded(rest, size, if c != '"' && |acc| < size - 1 then acc + [c] else acc, quoted');
      }
    }
  }

  // ----- written words are read back -----

  /** A word as it is written to a file, in quotes or not, with the blanks, line ends or semicolons
      that follow it. */
  datatype Piece = Piece(word: string, quoted: bool, sep: string)

  predicate IsSep(sep: string) { forall i | 0 <= i < |sep| :: Delimits(sep[i], false) }

  /** Characters that stand for themselves; blanks and semicolons only do in quotes. */
  predicate Speakable(w: string, quoted: bool) {
    forall i | 0 <= i < |w| :: Speaks(w[i], quoted)
  }

  predicate Speaks(c: char, quoted: bool) {
    c != '\t' && c != '\n' && c != '"' && c != '#' && c != '\0' && (c == ' ' || c == ';' ==> quoted)
  }

  predicate GoodPiece(p: Piece, size: nat) {
    0 < |p.word| < size && Speakable(p.word, p.quoted) && p.sep != "" && IsSep(p.sep)
  }

  function Shown(p: Piece): string {
    if p.quoted then "\"" + (p.word + "\"") else p.word
  }

  /** The pieces one after the other, and then the rest. */
  function Followed(ps: seq<Piece>, rest: string): string {
    if ps == [] then rest else Shown(ps[0]) + (ps[0].sep + Followed(ps[1..], rest))
  }

  lemma {:induction false} CollectWord(w: string, size: nat, acc: string, quoted: bool, rest: string)
    requires Speakable(w, quoted) && |acc| + |w| < size
    ensures Collect(w + rest, size, acc, quoted) == Collect(rest, size, acc + w, quoted)
    decreases |w|
  {
    if w == "" {
      assert w + rest == rest && acc + w == acc;
    } else {
      assert (w + rest)[0] == w[0] && (w + rest)[1..] == w[1..] + rest;
      CollectWord(w[1..], size, acc + [w[0]], quoted, rest);
      assert acc + [w[0]] + w[1..] == acc + w;
    }
  }

  lemma CollectQuote(size: nat, acc: string, quoted: bool, rest: string)
    ensures Collect("\"" + rest, size, acc, quoted) == Collect(rest, size, acc, !quoted)
  {
    assert ("\"" + rest)[1..] == rest;
  }

  lemma {:induction false} NulFreeIsCStr(w: string)
    requires NulFree(w)
    ensures UpToNul(w) == w
  {
    if w != "" { NulFreeIsCStr(w[1..]); }
  }

  lemma CollectStops(acc: string, sep: string, rest: string, size: nat)
    requires acc != "" && sep != "" && IsSep(sep)
    ensures Collect(sep + rest, size, acc, false) == (acc, sep[1..] + rest)
  {
    assert (sep + rest)[0] == sep[0] && (sep + rest)[1..] == sep[1..] + rest;
  }

  lemma {:induction false} CollectSkips(sep: string, rest: string, size: nat)
    requires IsSep(sep)
    ensures Collect(sep + rest, size, "", false) == Collect(rest, size, "", false)
  {
    if sep == "" {
      assert sep + rest == rest;
    } else {
      assert (sep + rest)[0] == sep[0] && (sep + rest)[1..] == sep[1..] + rest;
      CollectSkips(sep[1..], rest, size);
    }
  }

  /** A piece that fits the buffer is collected whole. */
  lemma CollectPiece(p: Piece, rest: string, size: nat)
    requires GoodPiece(p, size)
    ensures Collect(Shown(p) + (p.sep + rest), size, "", false) == (p.word, p.sep[1..] + rest)
  {
    hide Collect;
    var after := p.sep + rest;
    if p.quoted {
      assert Shown(p) + after == "\"" + (p.word + ("\"" + after));
      CollectQuote(size, "", false, p.word + ("\"" + after));
      CollectWord(p.word, size, "", true, "\"" + after);
      CollectQuote(size, p.word, true, after);
    } else {
      CollectWord(p.word, size, "", false, after);
    }
    assert "" + p.word == p.word;
    CollectStops(p.word, p.sep, rest, size);
  }

  /** A word written in quotes or bare, that fits the buffer, is read back unchanged. */
  lemma TokenReadsPiece(ps: seq<Piece>, rest: string, size: nat)
    requires ps != [] && GoodPiece(ps[0], size)
    ensures NulFree(ps[0].word)
    ensures Token(Followed(ps, rest), size) == (Some(ps[0].word), ps[0].sep[1..] + Followed(ps[1..], rest))
  {
    hide Collect;
    CollectPiece(ps[0], Followed(ps[1..], rest), size);
    NulFreeIsCStr(ps[0].word);
  }

  /** Separators before a token are skipped. */
  lemma TokenSkips(sep: string, text: string, size: nat)
    requires IsSep(sep)
    ensures Token(sep + text, size) == Token(text, size)
  {
    hide Collect;
    CollectSkips(sep, text, size);
  }

  /** All tokens of a text. */
  function Tokens(text: string, size: nat): seq<CStr>
    decreases |text|
  {
    var (t, rest) := Token(text, size);
    if t.None? then [] else [t.value] + Tokens(rest, size)
  }

  function WordsOf(ps: seq<Piece>): seq<string> {
    if ps == [] then [] else [ps[0].word] + WordsOf(ps[1..])
  }

  lemma TokensSkip(sep: string, text: string, size: nat)
    requires IsSep(sep)
    ensures Tokens(sep + text, size) == Tokens(text, size)
  {
    hide Token;
    TokenSkips(sep, text, size);
  }

  /** Writing pieces and reading the tokens gives the words back. */
  lemma {:induction false} TokensReadPieces(ps: seq<Piece>, size: nat)
    requires forall p | p in ps :: GoodPiece(p, size)
    ensures Tokens(Followed(ps, ""), size) == WordsOf(ps)
  {
    hide GoodPiece, Token;
    if ps == [] {
      EmptyHasNoToken(size);
    } else {
      TokenReadsPiece(ps, "", size);
      SepTail(ps[0], size);
      TokensSkip(ps[0].sep[1..], Followed(ps[1..], ""), size);
      TokensReadPieces(ps[1..], size);
    }
  }

  lemma SepTail(p: Piece, size: nat)
    requires GoodPiece(p, size)
    ensures p.sep != "" && IsSep(p.sep[1..])
  {}

  lemma EmptyHasNoToken(size: nat)
    ensures Token("", size) == (None, "")
  {}

  /** A word that does not fit is cut to the buffer; the rest of it is lost. */
  lemma {:induction false} CollectFull(w: string, size: nat, acc: string, quoted: bool, rest: string)
    requires Speakable(w, quoted) && |acc| + 1 == size
    ensures Collect(w + rest, size, acc, quoted) == Collect(rest, size, acc, quoted)
    decreases |w|
  {
    if w == "" {
      assert w + rest == rest;
    } else {
      assert (w + rest)[0] == w[0] && (w + rest)[1..] == w[1..] + rest;
      CollectFull(w[1..], size, acc, quoted, rest);
    }
  }

  lemma LongTokenIsCut(w: string, sep: string, rest: string, size: nat)
    requires Speakable(w, false) && 2 <= size <= |w| && sep != "" && IsSep(sep)
    ensures NulFree(w[..size - 1])
    ensures Token(w + (sep + rest), size) == (Some(w[..size - 1]), sep[1..] + rest)
  {
    hide Collect;
    var head, tail := w[..size - 1], w[size - 1..];
    assert w + (sep + rest) == head + (tail + (sep + rest)) && "" + head == head;
    CollectWord(head, size, "", false, tail + (sep + rest));
    CollectFull(tail, size, head, false, sep + rest);
    CollectStops(head, sep, rest, size);
    NulFreeIsCStr(head);
  }

  lemma {:induction false} CommentEnds(comment: string, rest: string)
    requires '\n' !in comment
    ensures CommentEnd(comment + ("\n" + rest)) == ('\n', rest) && CommentEnd(comment) == (EOF_BYTE, "")
  {
    if comment == "" {
      assert comment + ("\n" + rest) == "\n" + rest && ("\n" + rest)[1..] == rest;
    } else {
      assert (comment + ("\n" + rest))[0] == comment[0];
      assert (comment + ("\n" + rest))[1..] == comment[1..] + ("\n" + rest);
      CommentEnds(comment[1..], rest);
    }
  }

  /** A comment in front of a token is skipped with its line; one that the file ends in is read as a word
      of its own, the character that stands for the end. */
  lemma CommentIsSkipped(comment: string, rest: string, size: nat)
    requires '\n' !in comment
    ensures Token("#" + (comment + ("\n" + rest)), size) == Token(rest, size)
    ensures size >= 2 ==> Token("#" + comment, size) == (Some([EOF_BYTE]), "")
  {
    hide CommentEnd;
    CommentEnds(comment, rest);
    var text, last := "#" + (comment + ("\n" + rest)), "#" + comment;
    assert text[1..] == comment + ("\n" + rest) && last[1..] == comment;
    assert Collect(text, size, "", false) == Collect(rest, size, "", false);
    if size >= 2 {
      assert "" + [EOF_BYTE] == [EOF_BYTE];
      NulFreeIsCStr([EOF_BYTE]);
      assert Collect(last, size, "", false) == Collect("", size, [EOF_BYTE], false);
    }
  }

  // ----- host names -----

  method HostnameIsEqual(a: CStr, b: CStr) returns (r: bool)
    ensures r <==> Folded(a) == Folded(b)
  {
    var i := 0;
    while true
      invariant 0 <= i <= |a| && i <= |b|
      invariant forall j | 0 <= j < i :: Lower(a[j]) == Lower(b[j])
      decreases |a| - i
    {
      var c1 := Lower(if i < |a| then a[i] else '\0');
      var c2 := Lower(if i < |b| then b[i] else '\0');
      if c1 != c2 {
        assert |a| == |b| ==> Folded(a)[i] != Folded(b)[i];
        return false;
      }
      if c1 == '\0' { return true; }
      i := i + 1;
    }
    return true;
  }

  predicate LegalChar(c: char) {
    'A' <= c <= 'Z' || 'a' <= c <= 'z' || '0' <= c <= '9' || c == '-' || c == '/' || c == '_' || c == ' '
  }

  const LETTERS := "abcdefghijklmnopqrstuvwxyz"
  const OTHERS := "0123456789-/_ "

  lemma IsLetter(c: char)
    ensures c in LETTERS <==> 'a' <= c <= 'z'
  {
    if 'a' <= c <= 'z' { assert LETTERS[c as int - 'a' as int] == c; }
  }

  lemma IsOther(c: char)
    ensures c in OTHERS <==> '0' <= c <= '9' || c == '-' || c == '/' || c == '_' || c == ' '
  {
    if '0' <= c <= '9' { assert OTHERS[c as int - '0' as int] == c; }
    assert OTHERS[10] == '-' && OTHERS[11] == '/' && OTHERS[12] == '_' && OTHERS[13] == ' ';
  }

  /** Legal are the letters in either case, the digits, and four more. */
  lemma LegalExactly(c: char)
    ensures LegalChar(c) <==> Lower(c) in LETTERS || c in OTHERS
  {
    IsLetter(Lower(c));
    IsOther(c);
  }

  /** One trailing dot does not count. */
  function Trimmed(s: CStr): CStr {
    if s != "" && s[|s| - 1] == '.' then s[..|s| - 1] else s
  }

  /** There is a dot among the 64 characters from i on. */
  ghost predicate DotNear(s: string, i: nat)
    requires i + MAXLABEL < |s|
  {
    exists j | i <= j <= i + MAXLABEL :: s[j] == '.'
  }

  /** Legal characters and dots only, something other than blanks and dots, and no label too long:
      among any 64 consecutive characters there is a dot. */
  ghost predicate GoodName(s: string) {
    && (forall i | 0 <= i < |s| :: s[i] == '.' || LegalChar(s[i]))
    && (exists i | 0 <= i < |s| :: s[i] != '.' && s[i] != ' ')
    && (forall i: nat | i + MAXLABEL < |s| :: DotNear(s, i))
  }

  /** The position of the first dot, the length when there is none. */
  function FirstDot(s: string): (k: nat)
    ensures k <= |s| && (k < |s| ==> s[k] == '.') && forall i | 0 <= i < k :: s[i] != '.'
  {
    if s == "" || s[0] == '.' then 0 else 1 + FirstDot(s[1..])
  }

  /** What stands between the dots. */
  function Labels(s: string): seq<string> {
    var k := FirstDot(s);
    if k == |s| then [s] else [s[..k]] + Labels(s[k + 1..])
  }

  function Dotted(labels: seq<string>): string
    requires labels != []
  {
    if |labels| == 1 then labels[0] else labels[0] + "." + Dotted(labels[1..])
  }

  lemma {:induction false} LabelsStep(s: string)
    ensures var k := FirstDot(s);
            Labels(s) == if k == |s| then [s] else [s[..k]] + Labels(s[k + 1..])
  {
    hide FirstDot;
  }

  lemma {:induction false} NoDotBefore(s: string)
    ensures '.' !in s[..FirstDot(s)]
  {
    var k := FirstDot(s);
    hide FirstDot;
    assert forall i | 0 <= i < k :: s[..k][i] == s[i];
  }

  lemma AroundDot(s: string, k: nat)
    requires k < |s| && s[k] == '.'
    ensures s == s[..k] + "." + s[k + 1..]
  {}

  lemma {:induction false} LabelsAre(s: string)
    ensures Labels(s) != [] && Dotted(Labels(s)) == s && forall l | l in Labels(s) :: '.' !in l
  {
    hide Labels, FirstDot, Dotted;
    var k := FirstDot(s);
    LabelsStep(s);
    NoDotBefore(s);
    if k < |s| {
      LabelsAre(s[k + 1..]);
      AroundDot(s, k);
      DottedCons(s[..k], Labels(s[k + 1..]));
    } else {
      assert s[..k] == s;
      OnlyLabel(s);
    }
  }

  lemma OnlyLabel(s: string)
    ensures Dotted([s]) == s
  {}

  lemma DottedCons(a: string, labels: seq<string>)
    requires labels != []
    ensures Dotted([a] + labels) == a + "." + Dotted(labels)
  {
    assert ([a] + labels)[1..] == labels;
  }

  predicate GoodLabel(l: string) {
    |l| <= 63 && forall i | 0 <= i < |l| :: LegalChar(l[i])
  }

  predicate Blank(l: string) {
    forall i | 0 <= i < |l| :: l[i] == ' '
  }

  ghost predicate LegalName(s: string) {
    forall i | 0 <= i < |s| :: s[i] == '.' || LegalChar(s[i])
  }

  ghost predicate SaysSomething(s: string) {
    exists i | 0 <= i < |s| :: s[i] != '.' && s[i] != ' '
  }

  ghost predicate ShortLabels(s: string) {
    forall i: nat | i + MAXLABEL < |s| :: DotNear(s, i)
  }

  lemma SplitShort(a: string, b: string)
    requires '.' !in a
    ensures ShortLabels(a + "." + b) <==> |a| <= MAXLABEL && ShortLabels(b)
  {
    var s := a + "." + b;
    assert s[|a|] == '.';
    if |a| <= MAXLABEL && ShortLabels(b) {
      forall i: nat | i + MAXLABEL < |s| ensures DotNear(s, i) {
        if i > |a| { DotShifts(a, b, i - |a| - 1); } else { assert i <= |a| <= i + MAXLABEL; }
      }
    }
    if ShortLabels(s) {
      if |a| > MAXLABEL {
        assert DotNear(s, 0);
        assert forall j | 0 <= j <= MAXLABEL :: s[j] == a[j];
      }
      forall i: nat | i + MAXLABEL < |b| ensures DotNear(b, i) {
        assert DotNear(s, i + |a| + 1);
        DotShifts(a, b, i);
      }
    }
  }

  lemma DotShifts(a: string, b: string, i: nat)
    requires i + MAXLABEL < |b|
    ensures DotNear(a + "." + b, i + |a| + 1) <==> DotNear(b, i)
  {
    var s, n := a + "." + b, |a| + 1;
    assert forall j | 0 <= j < |b| :: s[j + n] == b[j];
    if DotNear(s, i + n) {
      var j :| i + n <= j <= i + n + MAXLABEL && s[j] == '.';
      assert b[j - n] == '.';
    }
    if DotNear(b, i) {
      var j :| i <= j <= i + MAXLABEL && b[j] == '.';
      assert s[j + n] == '.';
    }
  }

  lemma SplitLegal(a: string, b: string)
    requires '.' !in a
    ensures LegalName(a + "." + b) <==> LegalName(a) && LegalName(b)
    ensures SaysSomething(a + "." + b) <==> SaysSomething(a) || SaysSomething(b)
  {
    var s, n := a + "." + b, |a| + 1;
    assert forall j | 0 <= j < |a| :: s[j] == a[j];
    assert forall j | 0 <= j < |b| :: s[j + n] == b[j];
    assert forall j | n <= j < |s| :: s[j] == b[j - n];
    if SaysSomething(b) {
      var j :| 0 <= j < |b| && b[j] != '.' && b[j] != ' ';
      assert s[j + n] == b[j];
    }
  }

  lemma OneLabel(s: string)
    requires '.' !in s
    ensures GoodLabel(s) <==> LegalName(s) && ShortLabels(s)
    ensures ShortLabels(s) <==> |s| <= MAXLABEL
    ensures SaysSomething(s) <==> !Blank(s)
  {
    if |s| > MAXLABEL { assert !DotNear(s, 0); }
  }

  /** A name is good exactly when each of its labels has at most 63 legal characters and some label is not
      blank. */
  lemma {:induction false} GoodNameIs(s: string)
    ensures GoodName(s) <==> (forall l | l in Labels(s) :: GoodLabel(l)) && exists l | l in Labels(s) :: !Blank(l)
  {
    hide GoodLabel, Blank, LegalName, ShortLabels, SaysSomething;
    LabelsSay(s);
    GoodNameParts(s);
  }

  lemma GoodNameParts(s: string)
    ensures GoodName(s) <==> LegalName(s) && SaysSomething(s) && ShortLabels(s)
  {}

  lemma {:induction false} LabelsSay(s: string)
    ensures LegalName(s) && ShortLabels(s) <==> forall l | l in Labels(s) :: GoodLabel(l)
    ensures SaysSomething(s) <==> exists l | l in Labels(s) :: !Blank(l)
  {
    hide GoodLabel, Blank, LegalName, ShortLabels, SaysSomething;
    var k := FirstDot(s);
    if k == |s| {
      OneLabel(s);
      assert s in Labels(s);
    } else {
      var a, b := s[..k], s[k + 1..];
      assert s == a + "." + b;
      LabelsSay(b);
      OneLabel(a);
      SplitLegal(a, b);
      SplitShort(a, b);
      assert Labels(s) == [a] + Labels(b);
      assert forall l :: l in Labels(s) <==> l == a || l in Labels(b);
    }
  }

  method Canonicalise(s: CStr) returns (r: Option<CStr>)
    ensures r.Some? <==> |s| <= MAXDNAME && GoodName(Trimmed(s))
    ensures r.Some? ==> r.value == Trimmed(s)
  {
    if s == "" || |s| > MAXDNAME { return None; }
    var t := s;
    if s[|s| - 1] == '.' {
      if |s| == 1 { return None; }
      t := s[..|s| - 1];
    }
    var i, dotgap, nowhite := 0, 0, false;
    while i < |t|
      invariant 0 <= i <= |t| && 0 <= dotgap <= MAXLABEL && dotgap <= i
      invariant forall j | 0 <= j < i :: t[j] == '.' || LegalChar(t[j])
      invariant nowhite <==> exists j | 0 <= j < i :: t[j] != '.' && t[j] != ' '
      invariant forall j | i - dotgap <= j < i :: t[j] != '.'
      invariant dotgap < i ==> t[i - dotgap - 1] == '.'
      invariant forall k: nat | k + MAXLABEL < i :: DotNear(t, k)
    {
      if t[i] == '.' {
        dotgap := 0;
      } else if !LegalChar(t[i]) {
        return None;
      } else {
        dotgap := dotgap + 1;
        if dotgap > MAXLABEL {
          assert !DotNear(t, i - MAXLABEL);
          return None;
        }
        if t[i] != ' ' { nowhite := true; }
      }
      assert i >= MAXLABEL ==> t[i - dotgap] == '.' && DotNear(t, i - MAXLABEL);
      i := i + 1;
    }
    return if nowhite then Some(t) else None;
  }

  /** Blanks become dashes. */
  function Dashed(s: string): (d: string)
    ensures |d| == |s| && forall i | 0 <= i < |s| :: d[i] == if s[i] == ' ' then '-' else s[i]
  {
    if s == "" then "" else [if s[0] == ' ' then '-' else s[0]] + Dashed(s[1..])
  }

  method FixHostnameSpaces(hostname: CStr) returns (r: CStr)
    ensures r == Dashed(hostname)
  {
    r := hostname;
    var i := 0;
    while i < |r|
      invariant 0 <= i <= |r| == |hostname|
      invariant forall j | 0 <= j < i :: r[j] == Dashed(hostname)[j]
      invariant forall j | i <= j < |r| :: r[j] == hostname[j]
    {
      if r[i] == ' ' { r := r[i := '-']; }
      i := i + 1;
    }
  }

  /** The name a hostname statement gives, empty when it is refused. */
  ghost function NameFrom(token: CStr): CStr {
    if StartsWith(token, '}') || |token| > MAXDNAME || !GoodName(Trimmed(token)) then "" else Dashed(Trimmed(token))
  }

  method ReadName(token: CStr) returns (hostname: CStr)
    ensures hostname == NameFrom(token)
  {
    if StartsWith(token, '}') { return ""; }
    var c := Canonicalise(token);
    if c.None? { return ""; }
    hostname := FixHostnameSpaces(c.value);
  }

  // ----- lease blocks -----

  /** The library parsers, what lies behind the month table, and the configured domain. */
  datatype Env = Env(
    pton: string -> Option<nat>,
    date: string -> Option<(int, int, int)>,
    clock: string -> Option<(int, int, int)>,
    stray: int -> int,
    suffix: Option<CStr>)

  datatype Lease = Lease(name: CStr, fqdn: string, expires: int, addr: nat)

  /** What a block has said so far; -1 stands for a missing time. */
  datatype Draft = Draft(hostname: CStr, ttd: int, tts: int)

  /** Weekday, date and time of day; reading stops at the first of them that is wrong. */
  function Time(env: Env, text: string): (r: (Option<int>, string))
    ensures |r.1| <= |text|
  {
    var (weekday, rest1) := Token(text, MAXTOK);
    if weekday.None? then (None, rest1)
    else
      var (day, rest2) := Token(rest1, MAXTOK);
      if day.None? || env.date(day.value).None? then (None, rest2)
      else
        var (hour, rest3) := Token(rest2, MAXTOK);
        if hour.None? || env.clock(hour.value).None? then (None, rest3)
        else
          var (y, mo, d) := env.date(day.value).value;
          var (h, mi, s) := env.clock(hour.value).value;
          (Some(ConvertTime(Tm(y, mo, d, h, mi, s), env.stray)), rest3)
  }

  predicate IsHostname(t: string) { t == "client-hostname" || t == "hostname" }

  predicate IsTime(t: string) { t == "ends" || t == "starts" }

  function Timed(draft: Draft, keyword: string, time: Option<int>): Draft {
    if time.None? then draft else if keyword == "ends" then draft.(ttd := time.value) else draft.(tts := time.value)
  }

  /** One statement of a block, its keyword already read. */
  ghost function Statement(env: Env, draft: Draft, keyword: string, text: string): (r: (Draft, string))
    ensures |r.1| <= |text|
  {
    if IsHostname(keyword) then
      var (token, rest) := Token(text, MAXDNAME);
      (draft.(hostname := if token.None? then "" else NameFrom(token.value)), rest)
    else if IsTime(keyword) then
      var (time, rest) := Time(env, text);
      (Timed(draft, keyword, time), rest)
    else (draft, text)
  }

  /** The statements up to a closing brace or the end of the file. */
  ghost function Body(env: Env, draft: Draft, text: string): (r: (Draft, string))
    ensures |r.1| <= |text|
    decreases |text|
  {
    var (keyword, rest) := Token(text, MAXTOK);
    if keyword.None? || StartsWith(keyword.value, '}') then (draft, rest)
    else
      var (draft', rest') := Statement(env, draft, keyword.value, rest);
      Body(env, draft', rest')
  }

  /** A missing end, or an end one second before the start, means that the lease does not expire. */
  function Expiry(ttd: int, tts: int): int {
    var ttd' := if ttd == -1 then 0 else ttd;
    if tts != -1 && ttd' == tts - 1 then 0 else ttd'
  }

  /** The domain is cut off when none is configured or when it is the configured one. */
  predicate CutsDomain(env: Env, hostname: CStr) {
    var k := FirstDot(hostname);
    k < |hostname| && (env.suffix.None? || Folded(hostname[k + 1..]) == Folded(env.suffix.value))
  }

  function SuffixText(suffix: Option<CStr>): string {
    if suffix.None? then "(null)" else suffix.value
  }

  function Finished(env: Env, addr: nat, draft: Draft): Lease {
    var k := FirstDot(draft.hostname);
    var cut := CutsDomain(env, draft.hostname);
    var name: CStr := if cut then draft.hostname[..k] else draft.hostname;
    var suffix: string := if cut then draft.hostname[k + 1..] else SuffixText(env.suffix);
    Lease(name, name + "." + suffix, Expiry(draft.ttd, draft.tts), addr)
  }

  /** What the rules come to. A lease never expires exactly when its end is missing, zero or one
      second before its start. Without a configured domain, or with the configured one after the
      first dot, the short name is what stands before that dot and the long one the whole name;
      otherwise the whole name is kept and the configured domain is added to it. */
  lemma FinishedMeans(env: Env, addr: nat, draft: Draft)
    ensures var l, h := Finished(env, addr, draft), draft.hostname;
            && l.addr == addr
            && (l.expires == 0 <==>
                  draft.ttd == -1 || draft.ttd == 0 || (draft.tts != -1 && draft.ttd == draft.tts - 1))
            && (l.expires != 0 ==> l.expires == draft.ttd)
            && ('.' in h && env.suffix.None? ==> l.fqdn == h && IsLabelOf(l.name, h))
            && ('.' !in h ==> l.name == h && l.fqdn == h + "." + SuffixText(env.suffix))
    ensures var l, h := Finished(env, addr, draft), draft.hostname;
            forall d | 0 <= d < |h| && h[d] == '.' && '.' !in h[..d] && env.suffix.Some? ::
              if Folded(h[d + 1..]) == Folded(env.suffix.value) then l.name == h[..d] && l.fqdn == h
              else l.name == h && l.fqdn == h + "." + env.suffix.value
  {
    hide Folded;
    var h, k := draft.hostname, FirstDot(draft.hostname);
    if k < |h| {
      assert h == h[..k] + "." + h[k + 1..];
      assert '.' !in h[..k];
    }
    forall d | 0 <= d < |h| && h[d] == '.' && '.' !in h[..d] ensures d == k {
      DotBefore(h, k, d);
    }
  }

  lemma DotBefore(h: string, k: nat, d: nat)
    ensures k < d <= |h| && h[k] == '.' ==> '.' in h[..d]
  {
    if k < d <= |h| && h[k] == '.' { assert h[..d][k] == '.'; }
  }

  /** The text before the first dot. */
  predicate IsLabelOf(name: string, h: string) {
    |name| < |h| && h[..|name|] == name && h[|name|] == '.' && '.' !in name
  }

  /** A block, the word lease already read; none when the address is bad or the name missing. */
  ghost function Block(env: Env, text: string): (r: (Option<Lease>, string))
    ensures |r.1| <= |text|
  {
    var (ip, rest1) := Token(text, MAXTOK);
    if ip.None? || env.pton(ip.value).None? then (None, rest1)
    else
      var (open, rest2) := Token(rest1, MAXTOK);
      if open.None? || !StartsWith(open.value, '{') then (None, rest2)
      else
        var (draft, rest3) := Body(env, Draft("", -1, -1), rest2);
        (if draft.hostname == "" then None else Some(Finished(env, env.pton(ip.value).value, draft)), rest3)
  }

  /** The usable blocks of a lease file, in order. */
  ghost function Blocks(env: Env, text: string): seq<Lease>
    decreases |text|
  {
    var (keyword, rest) := Token(text, MAXTOK);
    if keyword.None? then []
    else if keyword.value != "lease" then Blocks(env, rest)
    else
      var (block, rest') := Block(env, rest);
      (if block.None? then [] else [block.value]) + Blocks(env, rest')
  }

  // ----- the array behind the host name -----

  /** The name that a statement reads, with its terminator, stays inside the array. */
  ghost predicate StatementFits(keyword: string, text: string) {
    IsHostname(keyword) ==> Width(text, MAXDNAME) < NAMEBUFF
  }

  ghost predicate BodyFits(env: Env, draft: Draft, text: string)
    decreases |text|
  {
    var (keyword, rest) := Token(text, MAXTOK);
    if keyword.None? || StartsWith(keyword.value, '}') then true
    else
      var (draft', rest') := Statement(env, draft, keyword.value, rest);
      StatementFits(keyword.value, rest) && BodyFits(env, draft', rest')
  }

  ghost predicate BlockFits(env: Env, text: string) {
    var (ip, rest1) := Token(text, MAXTOK);
    if ip.None? || env.pton(ip.value).None? then true
    else
      var (open, rest2) := Token(rest1, MAXTOK);
      if open.None? || !StartsWith(open.value, '{') then true
      else BodyFits(env, Draft("", -1, -1), rest2)
  }

  /** Every host name token read from the text has at most 255 characters. */
  ghost predicate NamesFit(env: Env, text: string)
    decreases |text|
  {
    var (keyword, rest) := Token(text, MAXTOK);
    if keyword.None? then true
    else if keyword.value != "lease" then NamesFit(env, rest)
    else BlockFits(env, rest) && NamesFit(env, Block(env, rest).1)
  }

  // ----- a written lease is read back -----

  /** A statement of a lease block: a name, always in quotes; a time; or one word of anything else. */
  datatype Stmt =
    | Name(kind: string, hostname: string)
    | When(keyword: string, weekday: string, day: string, hour: string)
    | Other(piece: Piece)

  function Bare(word: string): Piece { Piece(word, false, " ") }

  function Last(word: string): Piece { Piece(word, false, ";\n") }

  function Pieces(st: Stmt): seq<Piece> {
    match st
    case Name(k, h) => [Bare(k), Piece(h, true, ";\n")]
    case When(k, w, d, h) => [Bare(k), Bare(w), Bare(d), Last(h)]
    case Other(p) => [p]
  }

  /** What can be written: words that fit, dates and times that the library reads, and nothing that
      would be taken for another statement. */
  ghost predicate Readable(env: Env, st: Stmt) {
    match st
    case Name(k, h) => (k == "client-hostname" || k == "hostname") && GoodPiece(Piece(h, true, ";\n"), MAXDNAME)
    case When(k, w, d, h) =>
      && (k == "starts" || k == "ends")
      && GoodPiece(Bare(w), MAXTOK) && GoodPiece(Bare(d), MAXTOK) && GoodPiece(Last(h), MAXTOK)
      && env.date(d).Some? && env.clock(h).Some?
    case Other(p) =>
      GoodPiece(p, MAXTOK) && p.word !in {"client-hostname", "hostname", "starts", "ends"} && p.word[0] != '}'
  }

  /** What a statement adds to the lease. */
  ghost function Effect(env: Env, draft: Draft, st: Stmt): Draft
    requires Readable(env, st)
  {
    match st
    case Name(_, h) => draft.(hostname := NameFrom(h))
    case When(k, _, d, h) =>
      if k == "starts" then draft.(tts := TimeOf(env, d, h)) else draft.(ttd := TimeOf(env, d, h))
    case Other(_) => draft
  }

  ghost function TimeOf(env: Env, day: string, hour: string): int
    requires env.date(day).Some? && env.clock(hour).Some?
  {
    var (y, mo, d) := env.date(day).value;
    var (h, mi, s) := env.clock(hour).value;
    ConvertTime(Tm(y, mo, d, h, mi, s), env.stray)
  }

  ghost function Effects(env: Env, draft: Draft, sts: seq<Stmt>): Draft
    requires forall st | st in sts :: Readable(env, st)
    decreases |sts|
  {
    if sts == [] then draft else Effects(env, Effect(env, draft, sts[0]), sts[1..])
  }

  function BodyText(sts: seq<Stmt>, rest: string): string {
    if sts == [] then Followed([Piece("}", false, "\n")], rest) else Followed(Pieces(sts[0]), BodyText(sts[1..], rest))
  }

  lemma BodySkips(env: Env, draft: Draft, sep: string, text: string)
    requires IsSep(sep)
    ensures Body(env, draft, sep + text) == Body(env, draft, text)
  {
    hide Token, Statement;
    TokenSkips(sep, text, MAXTOK);
  }

  /** Weekday, date and time of day. */
  lemma TimeRead(env: Env, w: string, d: string, h: string, rest: string)
    requires GoodPiece(Bare(w), MAXTOK) && GoodPiece(Bare(d), MAXTOK) && GoodPiece(Last(h), MAXTOK)
    requires env.date(d).Some? && env.clock(h).Some?
    ensures Time(env, Followed([Bare(w), Bare(d), Last(h)], rest)) == (Some(TimeOf(env, d, h)), "\n" + rest)
  {
    hide Token, Followed, GoodPiece, ConvertTime;
    var ps := [Bare(w), Bare(d), Last(h)];
    TokenReadsPiece(ps, rest, MAXTOK);
    TokenReadsPiece(ps[1..], rest, MAXTOK);
    TokenReadsPiece(ps[2..], rest, MAXTOK);
    assert ps[1..][1..] == ps[2..] && ps[2..][1..] == [];
    assert Followed([], rest) == rest by { FollowedNone(rest); }
    assert " "[1..] == "" && ";\n"[1..] == "\n";
    assert "" + Followed(ps[1..], rest) == Followed(ps[1..], rest)
        && "" + Followed(ps[2..], rest) == Followed(ps[2..], rest);
  }

  lemma FollowedNone(rest: string)
    ensures Followed([], rest) == rest
  {}

  /** One statement, up to the line end after it. */
  lemma {:induction false} StatementRead(env: Env, draft: Draft, st: Stmt, rest: string)
    requires Readable(env, st)
    ensures Body(env, draft, Followed(Pieces(st), rest)) == Body(env, Effect(env, draft, st), rest)
  {
    hide Token, Followed, GoodPiece, Time, NameFrom, TimeOf, ConvertTime;
    assert Followed([], rest) == rest by { FollowedNone(rest); }
    match st
    case Name(k, h) =>
      var ps := [Bare(k), Piece(h, true, ";\n")];
      KeywordPiece(k);
      TokenReadsPiece(ps, rest, MAXTOK);
      TokenReadsPiece(ps[1..], rest, MAXDNAME);
      assert ps[1..][1..] == [] && ";\n"[1..] == "\n" && " "[1..] == "";
      assert "" + Followed(ps[1..], rest) == Followed(ps[1..], rest);
      BodySkips(env, Effect(env, draft, st), "\n", rest);
    case When(k, w, d, h) =>
      var ps := [Bare(k), Bare(w), Bare(d), Last(h)];
      KeywordPiece(k);
      TokenReadsPiece(ps, rest, MAXTOK);
      assert ps[1..] == [Bare(w), Bare(d), Last(h)] && " "[1..] == "";
      assert "" + Followed(ps[1..], rest) == Followed(ps[1..], rest);
      TimeRead(env, w, d, h, rest);
      BodySkips(env, Effect(env, draft, st), "\n", rest);
    case Other(p) =>
      TokenReadsPiece([p], rest, MAXTOK);
      assert [p][1..] == [];
      SepTail(p, MAXTOK);
      BodySkips(env, draft, p.sep[1..], rest);
  }

  lemma KeywordPiece(k: string)
    requires IsHostname(k) || IsTime(k) || k == "lease"
    ensures GoodPiece(Bare(k), MAXTOK)
  {
    hide Speakable;
    LongKeyword();
    ShortKeywords();
  }

  lemma LongKeyword()
    ensures Speakable("client-hostname", false)
  {}

  lemma ShortKeywords()
    ensures Speakable("hostname", false) && Speakable("ends", false) && Speakable("starts", false)
    ensures Speakable("lease", false)
  {}

  lemma {:induction false} BodyRead(env: Env, draft: Draft, sts: seq<Stmt>, rest: string)
    requires forall st | st in sts :: Readable(env, st)
    ensures Body(env, draft, BodyText(sts, rest)) == (Effects(env, draft, sts), rest)
    decreases |sts|
  {
    hide Token, Followed, Statement, Readable, Effect;
    if sts == [] {
      var ps := [Piece("}", false, "\n")];
      TokenReadsPiece(ps, rest, MAXTOK);
      assert ps[1..] == [] && "\n"[1..] == "" && "" + rest == rest;
      assert Followed([], rest) == rest by { FollowedNone(rest); }
    } else {
      StatementRead(env, draft, sts[0], BodyText(sts[1..], rest));
      BodyRead(env, Effect(env, draft, sts[0]), sts[1..], rest);
    }
  }

  // ----- what the statements of a lease come to -----

  /** The last name, and the last time of a kind, that the statements give. */
  function LastName(sts: seq<Stmt>): Option<string> {
    if sts == [] then None
    else if LastName(sts[1..]).Some? then LastName(sts[1..])
    else if sts[0].Name? then Some(sts[0].hostname) else None
  }

  function LastTime(sts: seq<Stmt>, keyword: string): Option<(string, string)> {
    if sts == [] then None
    else if LastTime(sts[1..], keyword).Some? then LastTime(sts[1..], keyword)
    else if sts[0].When? && sts[0].keyword == keyword then Some((sts[0].day, sts[0].hour)) else None
  }

  lemma {:induction false} LastReadable(env: Env, sts: seq<Stmt>)
    requires forall st | st in sts :: Readable(env, st)
    ensures LastName(sts).Some? ==> NulFree(LastName(sts).value)
    ensures forall k | LastTime(sts, k).Some? ::
              env.date(LastTime(sts, k).value.0).Some? && env.clock(LastTime(sts, k).value.1).Some?
  {
    if sts != [] {
      assert Readable(env, sts[0]);
      LastReadable(env, sts[1..]);
    }
  }

  /** A lease has the name of its last name statement, ends when its last end says and starts when its
      last start says; what no statement gives stays as it was. */
  lemma {:induction false} EffectsMean(env: Env, draft: Draft, sts: seq<Stmt>)
    requires forall st | st in sts :: Readable(env, st)
    ensures LastName(sts).Some? ==> NulFree(LastName(sts).value)
    ensures Effects(env, draft, sts).hostname ==
            if LastName(sts).Some? then NameFrom(LastName(sts).value) else draft.hostname
    ensures Effects(env, draft, sts).ttd == TimeIn(env, sts, "ends", draft.ttd)
    ensures Effects(env, draft, sts).tts == TimeIn(env, sts, "starts", draft.tts)
    decreases |sts|
  {
    hide NameFrom, TimeOf;
    LastReadable(env, sts);
    if sts != [] {
      assert Readable(env, sts[0]);
      LastReadable(env, sts[1..]);
      EffectsMean(env, Effect(env, draft, sts[0]), sts[1..]);
    }
  }

  /** The time that the last statement of a kind gives, in seconds. */
  ghost function TimeIn(env: Env, sts: seq<Stmt>, keyword: string, default: int): int
    requires forall st | st in sts :: Readable(env, st)
  {
    LastReadable(env, sts);
    if LastTime(sts, keyword).Some? then TimeOf(env, LastTime(sts, keyword).value.0, LastTime(sts, keyword).value.1)
    else default
  }

  /** A date y/m/d and a time h:m:s before 2038-01-19 03:14:08 count as the calendar's seconds. */
  lemma TimeIsCalendar(env: Env, day: string, hour: string, y: int, mo: int, d: int, h: int, mi: int, s: int)
    requires env.date(day) == Some((y, mo, d)) && env.clock(hour) == Some((h, mi, s))
    requires ValidTm(Tm(y, mo, d, h, mi, s)) && Before(Tm(y, mo, d, h, mi, s), LIMIT)
    ensures TimeOf(env, day, hour) == Seconds(Tm(y, mo, d, h, mi, s))
  {
    hide Seconds, ConvertTime;
    ConvertIsCalendar(Tm(y, mo, d, h, mi, s), env.stray);
  }

  /** A name is taken exactly when it does not begin with a brace, is not too long and is a good name
      without its trailing dot; it is taken without that dot and with dashes for blanks. */
  lemma NameMeans(token: CStr)
    ensures NameFrom(token) != "" <==>
            !(token != "" && token[0] == '}') && |token| <= 1025 && GoodName(Trimmed(token))
    ensures NameFrom(token) != "" ==>
              && |NameFrom(token)| == (if token[|token| - 1] == '.' then |token| - 1 else |token|)
              && forall i | 0 <= i < |NameFrom(token)| ::
                   NameFrom(token)[i] == if token[i] == ' ' then '-' else token[i]
  {}

  /** A lease as the server writes it. */
  datatype Written = Written(ip: string, statements: seq<Stmt>)

  ghost predicate Writable(env: Env, w: Written) {
    && GoodPiece(Bare(w.ip), MAXTOK) && env.pton(w.ip).Some?
    && forall st | st in w.statements :: Readable(env, st)
  }

  function LeaseText(w: Written, rest: string): string {
    Followed([Bare("lease"), Bare(w.ip), Piece("{", false, "\n")], BodyText(w.statements, rest))
  }

  ghost function LeaseOf(env: Env, w: Written): Option<Lease>
    requires Writable(env, w)
  {
    var draft := Effects(env, Draft("", -1, -1), w.statements);
    if draft.hostname == "" then None else Some(Finished(env, env.pton(w.ip).value, draft))
  }

  lemma BlockRead(env: Env, w: Written, rest: string)
    requires Writable(env, w)
    ensures Block(env, Followed([Bare(w.ip), Piece("{", false, "\n")], BodyText(w.statements, rest))) ==
            (LeaseOf(env, w), rest)
  {
    hide Token, Followed, GoodPiece, Body, Finished, Effects, BodyText, Readable;
    var ps, body := [Bare(w.ip), Piece("{", false, "\n")], BodyText(w.statements, rest);
    TokenReadsPiece(ps, body, MAXTOK);
    assert GoodPiece(ps[1..][0], MAXTOK) by { OpenPiece(); }
    TokenReadsPiece(ps[1..], body, MAXTOK);
    assert ps[1..][1..] == [] && " "[1..] == "" && "\n"[1..] == "" && "" + body == body;
    assert "" + Followed(ps[1..], body) == Followed(ps[1..], body);
    assert Followed([], body) == body by { FollowedNone(body); }
    BodyRead(env, Draft("", -1, -1), w.statements, rest);
  }

  lemma OpenPiece()
    ensures GoodPiece(Piece("{", false, "\n"), MAXTOK)
  {}

  /** What a lease file consists of: leases, words that are not read, and leases whose address is not
      one, of which the rest is read as such words. */
  datatype Part = Leased(lease: Written) | Stray(piece: Piece) | Refused(ip: string)

  ghost predicate GoodPart(env: Env, part: Part) {
    match part
    case Leased(w) => Writable(env, w)
    case Stray(p) => GoodPiece(p, MAXTOK) && p.word != "lease"
    case Refused(ip) => GoodPiece(Bare(ip), MAXTOK) && env.pton(ip).None?
  }

  function PartText(part: Part, rest: string): string {
    match part
    case Leased(w) => LeaseText(w, rest)
    case Stray(p) => Followed([p], rest)
    case Refused(ip) => Followed([Bare("lease"), Bare(ip)], rest)
  }

  function FileText(parts: seq<Part>): string {
    if parts == [] then "" else PartText(parts[0], FileText(parts[1..]))
  }

  ghost function PartLeases(env: Env, part: Part): seq<Lease>
    requires GoodPart(env, part)
  {
    if part.Leased? && LeaseOf(env, part.lease).Some? then [LeaseOf(env, part.lease).value] else []
  }

  ghost function LeasesOf(env: Env, parts: seq<Part>): seq<Lease>
    requires forall part | part in parts :: GoodPart(env, part)
  {
    if parts == [] then [] else PartLeases(env, parts[0]) + LeasesOf(env, parts[1..])
  }

  lemma BlocksSkip(env: Env, sep: string, text: string)
    requires IsSep(sep)
    ensures Blocks(env, sep + text) == Blocks(env, text)
  {
    hide Token, Block;
    TokenSkips(sep, text, MAXTOK);
  }

  lemma LeasedRead(env: Env, w: Written, rest: string)
    requires Writable(env, w)
    ensures Blocks(env, LeaseText(w, rest)) ==
            (if LeaseOf(env, w).None? then [] else [LeaseOf(env, w).value]) + Blocks(env, rest)
  {
    hide Token, Followed, Writable, LeaseOf, Block, BodyText;
    var body := BodyText(w.statements, rest);
    var ps := [Bare("lease"), Bare(w.ip), Piece("{", false, "\n")];
    KeywordPiece("lease");
    TokenReadsPiece(ps, body, MAXTOK);
    assert ps[1..] == [Bare(w.ip), Piece("{", false, "\n")] && " "[1..] == "";
    assert "" + Followed(ps[1..], body) == Followed(ps[1..], body);
    BlockRead(env, w, rest);
  }

  lemma StrayRead(env: Env, p: Piece, rest: string)
    requires GoodPiece(p, MAXTOK) && p.word != "lease"
    ensures Blocks(env, Followed([p], rest)) == Blocks(env, rest)
  {
    hide Token, Followed, Block, GoodPiece;
    TokenReadsPiece([p], rest, MAXTOK);
    assert [p][1..] == [];
    FollowedNone(rest);
    SepTail(p, MAXTOK);
    BlocksSkip(env, p.sep[1..], rest);
  }

  lemma RefusedBlock(env: Env, ip: string, rest: string)
    requires GoodPiece(Bare(ip), MAXTOK) && env.pton(ip).None?
    ensures Block(env, Followed([Bare(ip)], rest)) == (None, rest)
  {
    hide Token, Followed, GoodPiece, Body;
    TokenReadsPiece([Bare(ip)], rest, MAXTOK);
    assert [Bare(ip)][1..] == [] && " "[1..] == "" && "" + rest == rest;
    FollowedNone(rest);
  }

  lemma LeaseKeyword(ip: string, rest: string)
    requires GoodPiece(Bare(ip), MAXTOK)
    ensures Token(Followed([Bare("lease"), Bare(ip)], rest), MAXTOK) == (Some("lease"), Followed([Bare(ip)], rest))
  {
    hide Token, Followed, GoodPiece;
    var ps := [Bare("lease"), Bare(ip)];
    KeywordPiece("lease");
    TokenReadsPiece(ps, rest, MAXTOK);
    assert ps[1..] == [Bare(ip)] && " "[1..] == "";
    assert "" + Followed(ps[1..], rest) == Followed(ps[1..], rest);
  }

  lemma RefusedRead(env: Env, ip: string, rest: string)
    requires GoodPiece(Bare(ip), MAXTOK) && env.pton(ip).None?
    ensures Blocks(env, Followed([Bare("lease"), Bare(ip)], rest)) == Blocks(env, rest)
  {
    hide Token, Followed, GoodPiece, Block;
    LeaseKeyword(ip, rest);
    RefusedBlock(env, ip, rest);
    assert [] + Blocks(env, rest) == Blocks(env, rest);
  }

  /** A file of leases written with quoted names, times and other statements, with other words between
      them, has exactly the leases that these statements describe as its usable blocks, in order. */
  lemma {:induction false} BlocksReadBack(env: Env, parts: seq<Part>)
    requires forall part | part in parts :: GoodPart(env, part)
    ensures Blocks(env, FileText(parts)) == LeasesOf(env, parts)
  {
    hide Token, Followed, Writable, LeaseOf, Block, LeaseText, GoodPiece;
    if parts == [] {
      EmptyHasNoToken(MAXTOK);
    } else {
      var rest := FileText(parts[1..]);
      assert GoodPart(env, parts[0]);
      BlocksReadBack(env, parts[1..]);
      hide Blocks;
      match parts[0]
      case Leased(w) => LeasedRead(env, w, rest);
      case Stray(p) => StrayRead(env, p, rest);
      case Refused(ip) => RefusedRead(env, ip, rest);
      assert [] + Blocks(env, rest) == Blocks(env, rest);
    }
  }

  /** Names of at most 255 characters. */
  predicate ShortNames(sts: seq<Stmt>) {
    forall st | st in sts :: st.Name? ==> |st.hostname| < NAMEBUFF
  }

  lemma BodyFitsSkips(env: Env, draft: Draft, sep: string, text: string)
    requires IsSep(sep)
    ensures BodyFits(env, draft, sep + text) == BodyFits(env, draft, text)
  {
    hide Token, Statement, StatementFits;
    TokenSkips(sep, text, MAXTOK);
  }

  lemma {:induction false} StatementFitsRead(env: Env, draft: Draft, st: Stmt, rest: string)
    requires Readable(env, st)
    ensures BodyFits(env, draft, Followed(Pieces(st), rest))
            <==> (st.Name? ==> |st.hostname| < NAMEBUFF) && BodyFits(env, Effect(env, draft, st), rest)
  {
    hide Token, Followed, GoodPiece, Time, NameFrom, TimeOf, ConvertTime, Width;
    assert Followed([], rest) == rest by { FollowedNone(rest); }
    match st
    case Name(k, h) =>
      var ps := [Bare(k), Piece(h, true, ";\n")];
      KeywordPiece(k);
      TokenReadsPiece(ps, rest, MAXTOK);
      TokenReadsPiece(ps[1..], rest, MAXDNAME);
      PieceWidth(ps[1..], rest, MAXDNAME);
      assert ps[1..][1..] == [] && ";\n"[1..] == "\n" && " "[1..] == "";
      assert "" + Followed(ps[1..], rest) == Followed(ps[1..], rest);
      BodyFitsSkips(env, Effect(env, draft, st), "\n", rest);
    case When(k, w, d, h) =>
      var ps := [Bare(k), Bare(w), Bare(d), Last(h)];
      KeywordPiece(k);
      TokenReadsPiece(ps, rest, MAXTOK);
      assert ps[1..] == [Bare(w), Bare(d), Last(h)] && " "[1..] == "";
      assert "" + Followed(ps[1..], rest) == Followed(ps[1..], rest);
      TimeRead(env, w, d, h, rest);
      BodyFitsSkips(env, Effect(env, draft, st), "\n", rest);
    case Other(p) =>
      TokenReadsPiece([p], rest, MAXTOK);
      assert [p][1..] == [];
      SepTail(p, MAXTOK);
      BodyFitsSkips(env, draft, p.sep[1..], rest);
  }

  lemma PieceWidth(ps: seq<Piece>, rest: string, size: nat)
    requires ps != [] && GoodPiece(ps[0], size)
    ensures Width(Followed(ps, rest), size) == |ps[0].word|
  {
    hide Collect;
    CollectPiece(ps[0], Followed(ps[1..], rest), size);
  }

  lemma {:induction false} BodyFitsRead(env: Env, draft: Draft, sts: seq<Stmt>, rest: string)
    requires forall st | st in sts :: Readable(env, st)
    ensures BodyFits(env, draft, BodyText(sts, rest)) <==> ShortNames(sts)
    decreases |sts|
  {
    hide Token, Followed, Statement, Readable, Effect, StatementFits;
    if sts == [] {
      var ps := [Piece("}", false, "\n")];
      TokenReadsPiece(ps, rest, MAXTOK);
    } else {
      StatementFitsRead(env, draft, sts[0], BodyText(sts[1..], rest));
      BodyFitsRead(env, Effect(env, draft, sts[0]), sts[1..], rest);
      assert forall st :: st in sts <==> st == sts[0] || st in sts[1..];
    }
  }

  lemma BlockFitsRead(env: Env, w: Written, rest: string)
    requires Writable(env, w)
    ensures BlockFits(env, Followed([Bare(w.ip), Piece("{", false, "\n")], BodyText(w.statements, rest))) <==>
            ShortNames(w.statements)
  {
    hide Token, Followed, GoodPiece, BodyFits, BodyText, Readable, ShortNames;
    var ps, body := [Bare(w.ip), Piece("{", false, "\n")], BodyText(w.statements, rest);
    TokenReadsPiece(ps, body, MAXTOK);
    assert GoodPiece(ps[1..][0], MAXTOK) by { OpenPiece(); }
    TokenReadsPiece(ps[1..], body, MAXTOK);
    assert ps[1..][1..] == [] && " "[1..] == "" && "\n"[1..] == "" && "" + body == body;
    assert "" + Followed(ps[1..], body) == Followed(ps[1..], body);
    assert Followed([], body) == body by { FollowedNone(body); }
    BodyFitsRead(env, Draft("", -1, -1), w.statements, rest);
  }

  lemma NamesFitSkip(env: Env, sep: string, text: string)
    requires IsSep(sep)
    ensures NamesFit(env, sep + text) == NamesFit(env, text)
  {
    hide Token, Block, BlockFits;
    TokenSkips(sep, text, MAXTOK);
  }

  lemma LeasedFits(env: Env, w: Written, rest: string)
    requires Writable(env, w)
    ensures NamesFit(env, LeaseText(w, rest)) <==> ShortNames(w.statements) && NamesFit(env, rest)
  {
    hide Token, Followed, Writable, Block, BlockFits, BodyText, ShortNames, LeaseOf;
    var body := BodyText(w.statements, rest);
    var ps := [Bare("lease"), Bare(w.ip), Piece("{", false, "\n")];
    KeywordPiece("lease");
    TokenReadsPiece(ps, body, MAXTOK);
    assert ps[1..] == [Bare(w.ip), Piece("{", false, "\n")] && " "[1..] == "";
    assert "" + Followed(ps[1..], body) == Followed(ps[1..], body);
    BlockRead(env, w, rest);
    BlockFitsRead(env, w, rest);
  }

  lemma StrayFits(env: Env, p: Piece, rest: string)
    requires GoodPiece(p, MAXTOK) && p.word != "lease"
    ensures NamesFit(env, Followed([p], rest)) == NamesFit(env, rest)
  {
    hide Token, Followed, Block, BlockFits, GoodPiece;
    TokenReadsPiece([p], rest, MAXTOK);
    assert [p][1..] == [];
    FollowedNone(rest);
    SepTail(p, MAXTOK);
    NamesFitSkip(env, p.sep[1..], rest);
  }

  lemma RefusedFits(env: Env, ip: string, rest: string)
    requires GoodPiece(Bare(ip), MAXTOK) && env.pton(ip).None?
    ensures NamesFit(env, Followed([Bare("lease"), Bare(ip)], rest)) == NamesFit(env, rest)
  {
    hide Token, Followed, GoodPiece, Block;
    LeaseKeyword(ip, rest);
    RefusedBlock(env, ip, rest);
    assert BlockFits(env, Followed([Bare(ip)], rest)) by {
      TokenReadsPiece([Bare(ip)], rest, MAXTOK);
    }
  }

  /** A lease in the file with a name of more than 255 characters. */
  predicate LongName(part: Part) {
    part.Leased? && !ShortNames(part.lease.statements)
  }

  /** A file of written leases stays inside the array exactly when its names are short. */
  lemma {:induction false} WrittenNamesFit(env: Env, parts: seq<Part>)
    requires forall part | part in parts :: GoodPart(env, part)
    ensures NamesFit(env, FileText(parts)) <==> forall part | part in parts :: !LongName(part)
  {
    hide Token, Followed, Writable, Block, BlockFits, LeaseText, ShortNames, LeaseOf, GoodPiece;
    if parts == [] {
      EmptyHasNoToken(MAXTOK);
    } else {
      var rest := FileText(parts[1..]);
      assert GoodPart(env, parts[0]);
      WrittenNamesFit(env, parts[1..]);
      assert forall x :: x in parts <==> x == parts[0] || x in parts[1..];
      hide NamesFit;
      match parts[0]
      case Leased(w) => LeasedFits(env, w, rest);
      case Stray(p) => StrayFits(env, p, rest);
      case Refused(ip) => RefusedFits(env, ip, rest);
    }
  }

  /** The failing case: one lease whose name has 256 characters. */
  lemma LongNameDoesNotFit(env: Env)
    requires env.pton("10.0.0.1").Some?
    ensures !NamesFit(env, FileText([Leased(Written("10.0.0.1", [Name("hostname", seq(NAMEBUFF, _ => 'a'))]))]))
  {
    hide NamesFit, FileText;
    var name := Name("hostname", seq(NAMEBUFF, _ => 'a'));
    var w := Written("10.0.0.1", [name]);
    assert GoodPiece(Bare("10.0.0.1"), MAXTOK);
    assert Readable(env, name);
    assert name in w.statements && Leased(w) in [Leased(w)];
    WrittenNamesFit(env, [Leased(w)]);
  }

  // ----- the list of leases -----

  /** The first entry of that name. */
  function Find(list: seq<Lease>, key: string): (i: nat)
    ensures i <= |list| && (i < |list| ==> Folded(list[i].name) == key)
    ensures forall j | 0 <= j < i :: Folded(list[j].name) != key
  {
    if list == [] || Folded(list[0].name) == key then 0 else 1 + Find(list[1..], key)
  }

  /** A block replaces the entry of its name in place, or goes to the head of the list. */
  function Stored(list: seq<Lease>, b: Lease): seq<Lease> {
    var i := Find(list, Folded(b.name));
    if i < |list| then list[i := b] else [b] + list
  }

  function AllStored(list: seq<Lease>, blocks: seq<Lease>): seq<Lease>
    decreases |blocks|
  {
    if blocks == [] then list else AllStored(Stored(list, blocks[0]), blocks[1..])
  }

  predicate Expired(l: Lease, now: int) { l.expires != 0 && now > l.expires }

  function Live(list: seq<Lease>, now: int): seq<Lease> {
    if list == [] then [] else (if Expired(list[0], now) then [] else [list[0]]) + Live(list[1..], now)
  }

  // ----- what the list means -----

  /** No name occurs twice, whatever its case. */
  ghost predicate OnePerName(list: seq<Lease>) {
    forall i, j | 0 <= i < j < |list| :: Folded(list[i].name) != Folded(list[j].name)
  }

  /** The last block of a name. */
  function LastOf(blocks: seq<Lease>, key: string): Option<Lease> {
    if blocks == [] then None
    else
      var later := LastOf(blocks[1..], key);
      if later.Some? then later else if Folded(blocks[0].name) == key then Some(blocks[0]) else None
  }

  lemma StoredOnePerName(list: seq<Lease>, b: Lease)
    requires OnePerName(list)
    ensures OnePerName(Stored(list, b))
  {}

  lemma StoredMembers(list: seq<Lease>, b: Lease, e: Lease)
    requires OnePerName(list)
    ensures e in Stored(list, b) <==> e == b || (e in list && Folded(e.name) != Folded(b.name))
  {
    var i := Find(list, Folded(b.name));
    var r := Stored(list, b);
    if i < |list| {
      assert r[i] == b;
      if e in list && Folded(e.name) != Folded(b.name) {
        var j :| 0 <= j < |list| && list[j] == e;
        assert r[j] == e;
      }
      if e in r && e != b {
        var j :| 0 <= j < |r| && r[j] == e;
        assert j != i && list[j] == e;
      }
    }
  }

  /** Storing block after block keeps one entry per name, the last block of that name. */
  lemma {:induction false} AllStoredMembers(list: seq<Lease>, blocks: seq<Lease>, e: Lease)
    requires OnePerName(list)
    ensures OnePerName(AllStored(list, blocks))
    ensures e in AllStored(list, blocks)
            <==> LastOf(blocks, Folded(e.name)) == Some(e) || (LastOf(blocks, Folded(e.name)) == None && e in list)
    decreases |blocks|
  {
    hide OnePerName, Stored;
    if blocks != [] {
      StoredOnePerName(list, blocks[0]);
      AllStoredMembers(Stored(list, blocks[0]), blocks[1..], e);
      StoredMembers(list, blocks[0], e);
    }
  }

  lemma {:induction false} LiveMembers(list: seq<Lease>, now: int, e: Lease)
    ensures e in Live(list, now) <==> e in list && !Expired(e, now)
  {
    if list != [] { LiveMembers(list[1..], now, e); }
  }

  lemma OnePerNameParts(x: Lease, list: seq<Lease>)
    ensures OnePerName([x] + list) <==> OnePerName(list) && forall y | y in list :: Folded(y.name) != Folded(x.name)
  {
    var all := [x] + list;
    assert forall i | 0 <= i < |list| :: all[i + 1] == list[i];
    if OnePerName(all) {
      forall y | y in list ensures Folded(y.name) != Folded(x.name) {
        var i :| 0 <= i < |list| && list[i] == y;
        assert all[0] == x && all[i + 1] == y;
      }
    }
  }

  lemma {:induction false} LiveOnePerName(list: seq<Lease>, now: int)
    requires OnePerName(list)
    ensures OnePerName(Live(list, now))
  {
    hide OnePerName;
    if list != [] {
      var live := Live(list[1..], now);
      assert list == [list[0]] + list[1..];
      OnePerNameParts(list[0], list[1..]);
      LiveOnePerName(list[1..], now);
      forall y | y in live ensures Folded(y.name) != Folded(list[0].name) { LiveMembers(list[1..], now, y); }
      OnePerNameParts(list[0], live);
      assert [] + live == live;
    }
  }

  lemma NoneLive(now: int)
    ensures Live([], now) == []
  {}

  /** The lease under the cursor, kept or removed. */
  lemma AtLease(kept: seq<Lease>, rest: seq<Lease>)
    requires rest != []
    ensures var s := kept + rest;
            && s[|kept|] == rest[0] && s[..|kept|] + s[|kept| + 1..] == kept + rest[1..]
            && s == (kept + [rest[0]]) + rest[1..]
  {}

  lemma LiveStep(kept: seq<Lease>, rest: seq<Lease>, now: int)
    requires rest != []
    ensures kept + Live(rest, now) ==
            if rest[0].expires != 0 && now > rest[0].expires then kept + Live(rest[1..], now)
            else (kept + [rest[0]]) + Live(rest[1..], now)
  {
    assert [] + Live(rest[1..], now) == Live(rest[1..], now);
    assert kept + ([rest[0]] + Live(rest[1..], now)) == (kept + [rest[0]]) + Live(rest[1..], now);
  }

  /** Loading a lease file into an empty table leaves one entry per name: the last usable block of
      that name, unless it has expired. */
  lemma LoadedFromEmpty(env: Env, text: string, now: int, e: Lease)
    ensures OnePerName(Live(AllStored([], Blocks(env, text)), now))
    ensures e in Live(AllStored([], Blocks(env, text)), now)
            <==> LastOf(Blocks(env, text), Folded(e.name)) == Some(e) && (e.expires == 0 || now <= e.expires)
  {
    hide Blocks, AllStored, Live, LastOf;
    AllStoredMembers([], Blocks(env, text), e);
    LiveMembers(AllStored([], Blocks(env, text)), now, e);
    LiveOnePerName(AllStored([], Blocks(env, text)), now);
  }

  /** The lease is in the list and no later one has its name. */
  ghost predicate LastOfName(leases: seq<Lease>, e: Lease) {
    exists i :: 0 <= i < |leases| && leases[i] == e
                && forall j | i < j < |leases| :: Folded(leases[j].name) != Folded(e.name)
  }

  lemma {:induction false} NoneOf(leases: seq<Lease>, key: string)
    ensures LastOf(leases, key) == None <==> forall j | 0 <= j < |leases| :: Folded(leases[j].name) != key
  {
    if leases != [] {
      NoneOf(leases[1..], key);
      assert forall j | 0 < j < |leases| :: leases[j] == leases[1..][j - 1];
    }
  }

  lemma {:induction false} LastOfIs(leases: seq<Lease>, e: Lease)
    ensures LastOf(leases, Folded(e.name)) == Some(e) <==> LastOfName(leases, e)
  {
    hide Folded;
    if leases != [] {
      var rest := leases[1..];
      LastOfIs(rest, e);
      NoneOf(rest, Folded(e.name));
      LastOfStep(leases, e);
    }
  }

  lemma LastOfStep(leases: seq<Lease>, e: Lease)
    requires leases != []
    ensures LastOfName(leases, e) <==>
            LastOfName(leases[1..], e)
            || (leases[0] == e && forall j | 0 <= j < |leases[1..]| :: Folded(leases[1..][j].name) != Folded(e.name))
  {
    hide Folded;
    var rest := leases[1..];
    assert forall j | 0 < j < |leases| :: leases[j] == rest[j - 1];
    assert forall j | 0 <= j < |rest| :: rest[j] == leases[j + 1];
    if LastOfName(rest, e) {
      var i :| 0 <= i < |rest| && rest[i] == e && forall j | i < j < |rest| :: Folded(rest[j].name) != Folded(e.name);
      assert leases[i + 1] == e;
    }
    if LastOfName(leases, e) {
      var i :| 0 <= i < |leases| && leases[i] == e
               && forall j | i < j < |leases| :: Folded(leases[j].name) != Folded(e.name);
      if i > 0 { assert rest[i - 1] == e; }
    }
  }

  /** From a written file to the table: an entry is there exactly when it is the lease that the last
      usable block of its name describes and has not expired. */
  lemma WrittenIsLoaded(env: Env, parts: seq<Part>, now: int, e: Lease)
    requires forall part | part in parts :: GoodPart(env, part)
    ensures e in Live(AllStored([], Blocks(env, FileText(parts))), now) <==>
            LastOfName(LeasesOf(env, parts), e) && (e.expires == 0 || now <= e.expires)
  {
    hide Blocks, AllStored, Live, LastOf, LastOfName, FileText, LeasesOf, GoodPart;
    BlocksReadBack(env, parts);
    LoadedFromEmpty(env, FileText(parts), now, e);
    LastOfIs(LeasesOf(env, parts), e);
  }

  // ----- reading and loading -----

  class File {
    const text: string
    var pos: nat
    /** Whether every character stored so far went inside its array. */
    var inside: bool

    constructor (text: string)
      ensures this.text == text && pos == 0 && inside
    {
      this.text := text;
      pos := 0;
      inside := true;
    }

    ghost predicate Valid()
      reads this
    {
      pos <= |text|
    }

    ghost function Rest(): string
      requires Valid()
      reads this
    {
      text[pos..]
    }

    /** Reads to the end of a comment. */
    method SkipComment() returns (c: char)
      requires Valid()
      modifies this`pos
      ensures Valid() && (c, Rest()) == CommentEnd(old(Rest()))
    {
      while pos < |text|
        invariant Valid() && CommentEnd(Rest()) == CommentEnd(old(Rest()))
        decreases |text| - pos
      {
        c := text[pos];
        assert Rest()[1..] == text[pos + 1..];
        pos := pos + 1;
        if c == '\n' { return; }
      }
      c := EOF_BYTE;
    }

    /** next_token, told that it may use `size` characters of an array that has `room`. */
    method NextToken(size: nat, room: nat) returns (t: Option<CStr>)
      requires Valid()
      modifies this
      ensures Valid() && (t, Rest()) == Token(old(Rest()), size)
      ensures inside == (old(inside) && Width(old(Rest()), size) < room)
    {
      hide CommentEnd, UpToNul;
      var token, quotes := "", false;
      while pos < |text|
        invariant Valid() && Collect(Rest(), size, token, quotes) == Collect(old(Rest()), size, "", false)
        invariant inside == (old(inside) && |token| <= room)
        decreases |text| - pos
      {
        ghost var before := Rest();
        var c := text[pos];
        assert before[1..] == text[pos + 1..];
        pos := pos + 1;
        if c == '#' { c := SkipComment(); }
        assert (c, Rest()) == Next(before);
        if c == '"' { quotes := !quotes; }
        if (c == ' ' && !quotes) || c == '\t' || c == '\n' || (c == ';' && !quotes) {
          if token != "" { break; }
        } else if c != '"' && |token| < size - 1 {
          inside := inside && |token| < room;
          token := token + [c];
        }
      }
      inside := inside && |token| < room;
      t := if token == "" then None else Some(UpToNul(token));
    }

    /** next_token into the array of its own size. */
    method Keyword() returns (t: Option<CStr>)
      requires Valid()
      modifies this
      ensures Valid() && (t, Rest()) == Token(old(Rest()), MAXTOK) && inside == old(inside)
    {
      CollectBounded(Rest(), MAXTOK, "", false);
      t := NextToken(MAXTOK, MAXTOK);
    }
  }

  /** Reads the weekday, the date and the time of day. */
  method ReadTime(fp: File, env: Env) returns (time: Option<int>)
    requires fp.Valid()
    modifies fp
    ensures fp.Valid() && (time, fp.Rest()) == Time(env, old(fp.Rest())) && fp.inside == old(fp.inside)
  {
    hide Token, ConvertTime;
    var token := fp.Keyword();
    if token.None? { return None; }
    token := fp.Keyword();
    if token.None? || env.date(token.value).None? { return None; }
    var (y, mo, d) := env.date(token.value).value;
    token := fp.Keyword();
    if token.None? || env.clock(token.value).None? { return None; }
    var (h, mi, s) := env.clock(token.value).value;
    return Some(ConvertTime(Tm(y, mo, d, h, mi, s), env.stray));
  }

  method ReadStatement(fp: File, env: Env, draft: Draft, keyword: CStr) returns (r: Draft)
    requires fp.Valid()
    modifies fp
    ensures fp.Valid() && (r, fp.Rest()) == Statement(env, draft, keyword, old(fp.Rest()))
    ensures fp.inside == (old(fp.inside) && StatementFits(keyword, old(fp.Rest())))
  {
    hide Token, Time, NameFrom, Width;
    r := draft;
    if keyword == "client-hostname" || keyword == "hostname" {
      var token := fp.NextToken(MAXDNAME, NAMEBUFF);
      if token.None? { return draft.(hostname := ""); }
      var hostname := ReadName(token.value);
      r := draft.(hostname := hostname);
    } else if keyword == "ends" || keyword == "starts" {
      var time := ReadTime(fp, env);
      if time.Some? {
        r := if keyword == "ends" then draft.(ttd := time.value) else draft.(tts := time.value);
      }
    }
  }

  method ReadBody(fp: File, env: Env) returns (draft: Draft)
    requires fp.Valid()
    modifies fp
    ensures fp.Valid() && (draft, fp.Rest()) == Body(env, Draft("", -1, -1), old(fp.Rest()))
    ensures fp.inside == (old(fp.inside) && BodyFits(env, Draft("", -1, -1), old(fp.Rest())))
  {
    hide Token, Statement, StatementFits;
    draft := Draft("", -1, -1);
    ghost var all := fp.Rest();
    ghost var rest := all;
    var keyword := fp.Keyword();
    while keyword.Some? && !StartsWith(keyword.value, '}')
      invariant fp.Valid() && (keyword, fp.Rest()) == Token(rest, MAXTOK)
      invariant Body(env, draft, rest) == Body(env, Draft("", -1, -1), all)
      invariant (fp.inside && BodyFits(env, draft, rest)) == (old(fp.inside) && BodyFits(env, Draft("", -1, -1), all))
      decreases |rest|
    {
      draft := ReadStatement(fp, env, draft, keyword.value);
      rest := fp.Rest();
      keyword := fp.Keyword();
    }
  }

  method ReadBlock(fp: File, env: Env) returns (block: Option<Lease>)
    requires fp.Valid()
    modifies fp
    ensures fp.Valid() && (block, fp.Rest()) == Block(env, old(fp.Rest()))
    ensures fp.inside == (old(fp.inside) && BlockFits(env, old(fp.Rest())))
  {
    hide Token, Body, BodyFits, Finished;
    var token := fp.Keyword();
    if token.None? { return None; }
    var addr := env.pton(token.value);
    if addr.None? { return None; }
    token := fp.Keyword();
    if token.None? || !StartsWith(token.value, '{') { return None; }
    var draft := ReadBody(fp, env);
    if draft.hostname == "" { return None; }
    var lease := Finish(env, addr.value, draft);
    return Some(lease);
  }

  /** Settles the expiry and the domain of a block. */
  method Finish(env: Env, addr: nat, draft: Draft) returns (lease: Lease)
    ensures lease == Finished(env, addr, draft)
  {
    hide Folded;
    var ttd := draft.ttd;
    if ttd == -1 { ttd := 0; }
    if draft.tts != -1 && ttd == draft.tts - 1 { ttd := 0; }
    var hostname := draft.hostname;
    var suffix: string := SuffixText(env.suffix);
    var dot := FirstDot(hostname);
    if dot < |hostname| {
      var same := env.suffix.None?;
      if env.suffix.Some? { same := HostnameIsEqual(hostname[dot + 1..], env.suffix.value); }
      if same {
        suffix := hostname[dot + 1..];
        hostname := hostname[..dot];
      }
    }
    lease := Lease(hostname, hostname + "." + suffix, ttd, addr);
  }

  class LeaseTable {
    var leases: seq<Lease>

    constructor ()
      ensures leases == []
    {
      leases := [];
    }

    /** Updates the entry of that name or inserts one at the head. */
    method Store(b: Lease)
      modifies this
      ensures leases == Stored(old(leases), b)
    {
      var i := 0;
      while i < |leases|
        invariant 0 <= i <= |leases| && leases == old(leases)
        invariant forall j | 0 <= j < i :: Folded(leases[j].name) != Folded(b.name)
      {
        var same := HostnameIsEqual(leases[i].name, b.name);
        if same {
          leases := leases[i := b];
          return;
        }
        i := i + 1;
      }
      leases := [b] + leases;
    }

    /** Removes the expired leases in place. */
    method Prune(now: int)
      modifies this
      ensures leases == Live(old(leases), now)
    {
      hide Live, Expired;
      ghost var kept, rest := [], leases;
      var i := 0;
      assert kept + Live(rest, now) == Live(rest, now);
      while i < |leases|
        invariant i == |kept| && leases == kept + rest
        invariant kept + Live(rest, now) == Live(old(leases), now)
        decreases |rest|
      {
        AtLease(kept, rest);
        LiveStep(kept, rest, now);
        if leases[i].expires != 0 && now > leases[i].expires {
          leases := leases[..i] + leases[i + 1..];
        } else {
          kept := kept + [leases[i]];
          i := i + 1;
        }
        rest := rest[1..];
      }
      NoneLive(now);
    }

    /** Reads the whole file from its start, then prunes. */
    method LoadDhcp(fp: File, env: Env, now: int)
      modifies this, fp
      ensures leases == Live(AllStored(old(leases), Blocks(env, fp.text)), now)
      ensures fp.inside == NamesFit(env, fp.text)
    {
      hide Token, Block, BlockFits, Stored, Live;
      fp.pos, fp.inside := 0, true;
      ghost var rest := fp.Rest();
      assert rest == fp.text;
      var keyword := fp.Keyword();
      while keyword.Some?
        invariant fp.Valid() && (keyword, fp.Rest()) == Token(rest, MAXTOK)
        invariant AllStored(leases, Blocks(env, rest)) == AllStored(old(leases), Blocks(env, fp.text))
        invariant (fp.inside && NamesFit(env, rest)) == NamesFit(env, fp.text)
        decreases |rest|
      {
        if keyword.value == "lease" {
          var block := ReadBlock(fp, env);
          ghost var later := Blocks(env, fp.Rest());
          assert Blocks(env, rest) == (if block.None? then [] else [block.value]) + later;
          if block.Some? {
            assert ([block.value] + later)[1..] == later;
            Store(block.value);
          } else {
            assert [] + later == later;
          }
        }
        rest := fp.Rest();
        keyword := fp.Keyword();
      }
      Prune(now);
    }
  }
}
