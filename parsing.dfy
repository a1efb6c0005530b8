/** Lecture metadata from SRT file names (src/quizen/parsing.py). */
module Parsing {
  import opened Wrappers
  import opened Text
  import opened Sorting
  import opened Models
  import opened Seqs

  predicate AllSpace(s: string) {
    forall i :: 0 <= i < |s| ==> IsSpace(s[i])
  }

  predicate AllWord(s: string) {
    forall i :: 0 <= i < |s| ==> IsWordChar(s[i])
  }

  lemma WordCharIsNoSpace(c: char)
    ensures IsWordChar(c) ==> !IsSpace(c)
  {
  }

  /** Length of the leading run of whitespace of `s`. */
  function SpaceRun(s: string): (k: nat)
    ensures k <= |s|
    decreases |s|
  {
    if s != [] && IsSpace(s[0]) then 1 + SpaceRun(s[1..]) else 0
  }

  /** The run is all whitespace and stops before the first other character. */
  lemma {:induction false} SpaceRunSpec(s: string)
    ensures AllSpace(s[..SpaceRun(s)])
    ensures SpaceRun(s) < |s| ==> !IsSpace(s[SpaceRun(s)])
    decreases |s|
  {
    if s != [] && IsSpace(s[0]) {
      SpaceRunSpec(s[1..]);
      var k := SpaceRun(s);
      assert forall i :: 1 <= i < k ==> s[..k][i] == s[1..][..k - 1][i - 1];
    }
  }

  /** Length of the leading run of word characters of `s`. */
  function WordRun(s: string): (k: nat)
    ensures k <= |s|
    decreases |s|
  {
    if s != [] && IsWordChar(s[0]) then 1 + WordRun(s[1..]) else 0
  }

  /** The run is all word characters and stops before the first other character. */
  lemma {:induction false} WordRunSpec(s: string)
    ensures AllWord(s[..WordRun(s)])
    ensures WordRun(s) < |s| ==> !IsWordChar(s[WordRun(s)])
    decreases |s|
  {
    if s != [] && IsWordChar(s[0]) {
      WordRunSpec(s[1..]);
      var k := WordRun(s);
      assert forall i :: 1 <= i < k ==> s[..k][i] == s[1..][..k - 1][i - 1];
    }
  }

  /** The named groups of `FILENAME_PATTERN`. */
  datatype FilenameGroups = FilenameGroups(order: string, id: string, title: string)

  /** What precedes a closing ".srt" that ends the name or is followed by a
      single final newline (where `$` also matches). */
  function BeforeSrt(s: string): (r: Option<string>)
    ensures r.Some? ==> s == r.value + ".srt" || s == r.value + ".srt\n"
  {
    if EndsWith(s, ".srt") then Some(s[..|s| - 4])
    else if EndsWith(s, ".srt\n") then Some(s[..|s| - 5])
    else None
  }

  /** The title group from what follows the id: the whitespace run, then the
      title before ".srt". The run is read greedily as the regular expression
      engine does, and gives back its last character only when the title
      would otherwise be empty. */
  function MatchTitle(r: string): Option<string> {
    var k := SpaceRun(r);
    if k == 0 then None
    else
      var title := BeforeSrt(r[k..]);
      if title.None? then None
      else if title.value != [] then
        if '\n' in title.value then None else title
      else if k >= 2 && r[k - 1] != '\n' then Some([r[k - 1]])
      else None
  }

  /** The id and title groups from what follows the three digits. */
  function MatchAfterOrder(r: string): Option<(string, string)> {
    var k1 := SpaceRun(r);
    if k1 == 0 then None
    else
      var k2 := WordRun(r[k1..]);
      if k2 == 0 then None
      else
        match MatchTitle(r[k1..][k2..])
        case None => None
        case Some(title) => Some((r[k1..][..k2], title))
  }

  /** `FILENAME_PATTERN.match(name)` for the pattern of three digits,
      whitespace, word characters, whitespace, a title of any characters but
      newline, and ".srt" at the end (or before one final newline). */
  function MatchFilename(name: string): Option<FilenameGroups> {
    if |name| < 3 || !AllDigits(name[..3]) then None
    else
      match MatchAfterOrder(name[3..])
      case None => None
      case Some((id, title)) => Some(FilenameGroups(name[..3], id, title))
  }

  /** A file name put together from its groups and the text the pattern
      matches between them. */
  function Assemble(order: string, ws1: string, id: string, ws2: string, title: string, nl: string): string {
    order + (ws1 + (id + (ws2 + (title + (".srt" + nl)))))
  }

  /** Each piece of an assembled name is of the class the pattern asks for. */
  predicate FilenameShape(order: string, ws1: string, id: string, ws2: string, title: string, nl: string) {
    && |order| == 3 && AllDigits(order)
    && ws1 != [] && AllSpace(ws1)
    && id != [] && AllWord(id)
    && ws2 != [] && AllSpace(ws2)
    && title != [] && '\n' !in title
    && (nl == "" || nl == "\n")
  }

  /** What ".srt" leaves behind: nothing, or the one final newline. */
  lemma SrtTail(s: string) returns (nl: string)
    requires BeforeSrt(s).Some?
    ensures s == BeforeSrt(s).value + (".srt" + nl) && (nl == "" || nl == "\n")
  {
    nl := if s == BeforeSrt(s).value + ".srt" then "" else "\n";
    assert ".srt" + "" == ".srt" && ".srt" + "\n" == ".srt\n";
  }

  /** The last whitespace character, given back to an otherwise empty title. */
  lemma LastSpaceAsTitle(r: string, k: nat, nl: string) returns (ws: string)
    requires 2 <= k <= |r| && AllSpace(r[..k]) && r[k..] == ".srt" + nl
    ensures ws != [] && AllSpace(ws) && r == ws + ([r[k - 1]] + (".srt" + nl))
  {
    ws := r[..k - 1];
    assert forall i :: 0 <= i < k - 1 ==> ws[i] == r[..k][i];
    assert r[..k] == ws + [r[k - 1]];
    assert r == r[..k] + r[k..];
  }

  lemma TitleSound(r: string) returns (ws: string, nl: string)
    requires MatchTitle(r).Some?
    ensures var t := MatchTitle(r).value;
      && r == ws + (t + (".srt" + nl))
      && ws != [] && AllSpace(ws)
      && t != [] && '\n' !in t
      && (nl == "" || nl == "\n")
      && (|t| == 1 || !IsSpace(t[0]))
  {
    var k := SpaceRun(r);
    SpaceRunSpec(r);
    nl := SrtTail(r[k..]);
    var t := BeforeSrt(r[k..]).value;
    if t != [] {
      assert MatchTitle(r) == Some(t);
      ws := RunBeforeTitle(r, k, t, nl);
    } else {
      assert MatchTitle(r) == Some([r[k - 1]]);
      ws := LastSpaceAsTitle(r, k, nl);
    }
  }

  /** The whitespace run in front of a non-empty title. */
  lemma RunBeforeTitle(r: string, k: nat, t: string, nl: string) returns (ws: string)
    requires 1 <= k <= |r| && AllSpace(r[..k]) && r[k..] == t + (".srt" + nl) && t != []
    requires k < |r| ==> !IsSpace(r[k])
    ensures ws != [] && AllSpace(ws) && r == ws + (t + (".srt" + nl)) && !IsSpace(t[0])
  {
    ws := r[..k];
    assert r == ws + r[k..];
    assert t[0] == r[k];
  }

  lemma AfterOrderSound(r: string) returns (ws1: string, ws2: string, nl: string)
    requires MatchAfterOrder(r).Some?
    ensures var (id, t) := MatchAfterOrder(r).value;
      && r == ws1 + (id + (ws2 + (t + (".srt" + nl))))
      && ws1 != [] && AllSpace(ws1)
      && id != [] && AllWord(id)
      && ws2 != [] && AllSpace(ws2)
      && t != [] && '\n' !in t
      && (nl == "" || nl == "\n")
      && (|t| == 1 || !IsSpace(t[0]))
  {
    var k1 := SpaceRun(r);
    SpaceRunSpec(r);
    var k2 := WordRun(r[k1..]);
    WordRunSpec(r[k1..]);
    var t := MatchTitle(r[k1..][k2..]).value;
    assert MatchAfterOrder(r) == Some((r[k1..][..k2], t));
    ws2, nl := TitleSound(r[k1..][k2..]);
    ws1 := r[..k1];
    SplitTwice(r, k1, k2);
  }

  lemma SplitTwice(r: string, k1: nat, k2: nat)
    requires k1 <= |r| && k2 <= |r[k1..]|
    ensures r == r[..k1] + (r[k1..][..k2] + r[k1..][k2..])
  {
    assert r == r[..k1] + r[k1..];
    assert r[k1..] == r[k1..][..k2] + r[k1..][k2..];
  }

  /** What a match guarantees: the name is the order, whitespace, the id,
      whitespace, the title and ".srt" (with at most a final newline), each
      group of its class; the title starts past the whitespace unless it is a
      single character. */
  lemma MatchSound(name: string) returns (ws1: string, ws2: string, nl: string)
    requires MatchFilename(name).Some?
    ensures var g := MatchFilename(name).value;
      && name == Assemble(g.order, ws1, g.id, ws2, g.title, nl)
      && FilenameShape(g.order, ws1, g.id, ws2, g.title, nl)
      && (|g.title| == 1 || !IsSpace(g.title[0]))
  {
    ws1, ws2, nl := AfterOrderSound(name[3..]);
    assert name == name[..3] + name[3..];
  }

  /** The greedy whitespace run of an assembled title part ends inside the title. */
  lemma TitleRun(ws: string, title: string, tail: string) returns (m: nat)
    requires ws != [] && AllSpace(ws) && title != [] && tail != [] && tail[0] == '.'
    ensures m <= |title| && SpaceRun(ws + (title + tail)) == |ws| + m
    ensures (ws + (title + tail))[|ws| + m..] == title[m..] + tail
    ensures !IsSpace(title[0]) ==> m == 0
  {
    SpaceRunSplit(ws, title + tail);
    m := SpaceRun(title + tail);
    SpaceRunBefore(title, tail);
    DropConcat(title, tail, m);
    assert (title + tail)[0] == title[0];
  }

  lemma BeforeSrtOf(t: string, nl: string)
    requires nl == "" || nl == "\n"
    ensures BeforeSrt(t + (".srt" + nl)) == Some(t)
  {
    var s := t + (".srt" + nl);
    if nl == "" {
      assert s == t + ".srt";
      assert s[|s| - 4..] == ".srt";
      assert s[..|s| - 4] == t;
    } else {
      assert s == t + ".srt\n";
      assert s[|s| - 4..][3] == '\n';
      assert s[|s| - 5..] == ".srt\n";
      assert s[..|s| - 5] == t;
    }
  }

  lemma TitleComplete(ws: string, title: string, nl: string)
    requires ws != [] && AllSpace(ws)
    requires title != [] && '\n' !in title
    requires nl == "" || nl == "\n"
    ensures MatchTitle(ws + (title + (".srt" + nl))).Some?
    ensures !IsSpace(title[0]) ==> MatchTitle(ws + (title + (".srt" + nl))) == Some(title)
  {
    var m := TitleTail(ws, title, nl);
    TitleFromRun(ws + (title + (".srt" + nl)), |ws| + m, title[m..]);
  }

  /** Where the greedy run stops in an assembled title part, and what is left
      before ".srt". */
  lemma TitleTail(ws: string, title: string, nl: string) returns (m: nat)
    requires ws != [] && AllSpace(ws)
    requires title != [] && '\n' !in title
    requires nl == "" || nl == "\n"
    ensures var r := ws + (title + (".srt" + nl));
      && m <= |title| && SpaceRun(r) == |ws| + m
      && BeforeSrt(r[|ws| + m..]) == Some(title[m..]) && '\n' !in title[m..]
      && (title[m..] == [] ==> |ws| + m >= 2 && r[|ws| + m - 1] != '\n')
      && (!IsSpace(title[0]) ==> m == 0)
  {
    var tail := ".srt" + nl;
    var r := ws + (title + tail);
    m := TitleRun(ws, title, tail);
    BeforeSrtOf(title[m..], nl);
    if title[m..] == [] {
      assert r[|ws| + m - 1] == title[|title| - 1];
    } else {
      assert forall i :: 0 <= i < |title[m..]| ==> title[m..][i] == title[m + i];
    }
  }

  lemma TitleFromRun(r: string, k: nat, t: string)
    requires k == SpaceRun(r) && k >= 1 && BeforeSrt(r[k..]) == Some(t) && '\n' !in t
    requires t == [] ==> k >= 2 && r[k - 1] != '\n'
    ensures MatchTitle(r).Some?
    ensures t != [] ==> MatchTitle(r) == Some(t)
  {
  }

  lemma DropConcat(a: string, b: string, m: nat)
    requires m <= |a|
    ensures (a + b)[m..] == a[m..] + b
  {
    assert forall i :: 0 <= i < |a| + |b| - m ==> (a + b)[m..][i] == (a[m..] + b)[i];
  }

  lemma {:induction false} SpaceRunSplit(ws: string, rest: string)
    requires AllSpace(ws)
    ensures SpaceRun(ws + rest) == |ws| + SpaceRun(rest)
    decreases |ws|
  {
    if ws != [] {
      assert (ws + rest)[0] == ws[0];
      assert (ws + rest)[1..] == ws[1..] + rest;
      SpaceRunSplit(ws[1..], rest);
    } else {
      assert ws + rest == rest;
    }
  }

  lemma {:induction false} SpaceRunBefore(t: string, suffix: string)
    requires suffix != [] && !IsSpace(suffix[0])
    ensures SpaceRun(t + suffix) <= |t|
    decreases |t|
  {
    if t != [] {
      assert (t + suffix)[1..] == t[1..] + suffix;
      SpaceRunBefore(t[1..], suffix);
    }
  }

  /** Every name of that shape matches, with that order and that id, and
      with that title unless the title starts with whitespace (which the
      greedy second run then takes). */
  lemma MatchComplete(order: string, ws1: string, id: string, ws2: string, title: string, nl: string)
    requires FilenameShape(order, ws1, id, ws2, title, nl)
    ensures var m := MatchFilename(Assemble(order, ws1, id, ws2, title, nl));
      && m.Some? && m.value.order == order && m.value.id == id
      && (!IsSpace(title[0]) ==> m.value.title == title)
  {
    var tail := ws2 + (title + (".srt" + nl));
    var name := Assemble(order, ws1, id, ws2, title, nl);
    assert name[..3] == order;
    assert name[3..] == ws1 + (id + tail);
    TitleComplete(ws2, title, nl);
    AfterOrderComplete(ws1, id, tail);
  }

  /** Whitespace, then word characters, then a title part that matches. */
  lemma AfterOrderComplete(ws1: string, id: string, tail: string)
    requires ws1 != [] && AllSpace(ws1) && id != [] && AllWord(id)
    requires tail != [] && IsSpace(tail[0]) && MatchTitle(tail).Some?
    ensures MatchAfterOrder(ws1 + (id + tail)) == Some((id, MatchTitle(tail).value))
  {
    var r := ws1 + (id + tail);
    WordCharIsNoSpace(id[0]);
    SpaceRunOfPrefix(ws1, id + tail);
    assert r[|ws1|..] == id + tail;
    WordRunOfPrefix(id, tail);
    assert r[|ws1|..][|id|..] == tail;
    assert r[|ws1|..][..|id|] == id;
  }

  lemma {:induction false} SpaceRunOfPrefix(ws: string, rest: string)
    requires AllSpace(ws) && (rest != [] ==> !IsSpace(rest[0]))
    ensures SpaceRun(ws + rest) == |ws|
    decreases |ws|
  {
    if ws != [] {
      assert (ws + rest)[0] == ws[0];
      assert (ws + rest)[1..] == ws[1..] + rest;
      assert forall i :: 0 <= i < |ws| - 1 ==> ws[1..][i] == ws[i + 1];
      SpaceRunOfPrefix(ws[1..], rest);
    } else {
      assert ws + rest == rest;
    }
  }

  lemma {:induction false} WordRunOfPrefix(w: string, rest: string)
    requires AllWord(w) && rest != [] && IsSpace(rest[0])
    ensures WordRun(w + rest) == |w|
    decreases |w|
  {
    if w != [] {
      assert (w + rest)[1..] == w[1..] + rest;
      WordRunOfPrefix(w[1..], rest);
    } else {
      WordCharIsNoSpace(rest[0]);
    }
  }

  /** A name that does not end in the exact lowercase ".srt" (possibly
      followed by one final newline) never matches. */
  lemma SrtSuffixRequired(name: string)
    ensures MatchFilename(name).Some? ==> EndsWith(name, ".srt") || EndsWith(name, ".srt\n")
  {
    if MatchFilename(name).Some? {
      var ws1, ws2, nl := MatchSound(name);
      var g := MatchFilename(name).value;
      AssembledEndsWithSrt(g.order, ws1, g.id, ws2, g.title, nl);
    }
  }

  lemma AssembledEndsWithSrt(order: string, ws1: string, id: string, ws2: string, title: string, nl: string)
    requires nl == "" || nl == "\n"
    ensures var name := Assemble(order, ws1, id, ws2, title, nl);
      EndsWith(name, ".srt") || EndsWith(name, ".srt\n")
  {
    var front := order + (ws1 + (id + (ws2 + title)));
    assert Assemble(order, ws1, id, ws2, title, nl) == front + (".srt" + nl);
    assert ".srt" + "" == ".srt" && ".srt" + "\n" == ".srt\n";
    EndsWithConcat(front, ".srt" + nl);
  }

  lemma EndsWithConcat(a: string, b: string)
    ensures EndsWith(a + b, b)
  {
    assert (a + b)[|a|..] == b;
  }

  /** `path.name`: the text after the last '/'. */
  function FileName(path: string): (name: string)
    ensures |name| <= |path| && name == path[|path| - |name|..] && '/' !in name
    ensures |name| < |path| ==> path[|path| - |name| - 1] == '/'
    decreases |path|
  {
    if path == [] || path[|path| - 1] == '/' then []
    else FileName(path[..|path| - 1]) + [path[|path| - 1]]
  }

  /** Index of the last `c` in `s`, or -1 (`s.rfind(c)`). */
  function LastIndexOf(s: string, c: char): (i: int)
    ensures -1 <= i < |s|
    ensures i >= 0 ==> s[i] == c && forall j :: i < j < |s| ==> s[j] != c
    ensures i == -1 ==> c !in s
    decreases |s|
  {
    if s == [] then -1
    else if s[|s| - 1] == c then |s| - 1
    else LastIndexOf(s[..|s| - 1], c)
  }

  /** `path.stem`: the name without its last suffix; a leading or a final
      dot starts no suffix. */
  function Stem(name: string): (stem: string)
    ensures stem <= name
  {
    var i := LastIndexOf(name, '.');
    if 0 < i < |name| - 1 then name[..i] else name
  }

  const MismatchWarning: string := "Filename does not match expected pattern: "

  /** `parse_filename`: the lecture and its warnings. */
  function ParseFilename(path: string): (r: (Lecture, seq<string>))
    ensures r.0.filePath == Some(path) && r.0.partCode.None?
  {
    var name := FileName(path);
    match MatchFilename(name)
    case None =>
      var stem := Stem(name);
      (Lecture("", stem, stem, None, Some(path)), [MismatchWarning + name])
    case Some(g) =>
      (Lecture(g.order, g.id, g.title, None, Some(path)), [])
  }

  /** A matching name gives its groups and no warning; any other name gives
      one warning naming it, and its stem serves as id and title. */
  lemma ParseFilenameCorrect(path: string)
    ensures var r := ParseFilename(path);
      && (r.1 == [] <==> MatchFilename(FileName(path)).Some?)
      && (MatchFilename(FileName(path)).Some? ==>
        var g := MatchFilename(FileName(path)).value;
        r.0.order == g.order && r.0.id == g.id && r.0.title == g.title)
      && (MatchFilename(FileName(path)).None? ==>
        && r.1 == [MismatchWarning + FileName(path)]
        && r.0.order == "" && r.0.id == Stem(FileName(path)) && r.0.title == Stem(FileName(path)))
  {
  }

  /** A name with a single word between the order and ".srt" has no title
      group, so it never matches. */
  lemma SingleWordNeverMatches(order: string, ws: string, w: string, nl: string)
    requires |order| == 3 && ws != [] && AllSpace(ws) && AllWord(w)
    ensures MatchFilename(order + (ws + (w + (".srt" + nl)))).None?
  {
    var name := order + (ws + (w + (".srt" + nl)));
    assert name[3..] == ws + (w + (".srt" + nl));
    SingleWordAfterOrder(ws, w, ".srt" + nl);
  }

  lemma SingleWordAfterOrder(ws: string, w: string, tail: string)
    requires ws != [] && AllSpace(ws) && AllWord(w) && tail != [] && tail[0] == '.'
    ensures MatchAfterOrder(ws + (w + tail)).None?
  {
    var r := ws + (w + tail);
    if w != [] {
      WordCharIsNoSpace(w[0]);
    }
    SpaceRunOfPrefix(ws, w + tail);
    assert r[|ws|..] == w + tail;
    WordRunStopsAt(w, tail);
    assert (w + tail)[|w|..] == tail;
    NoTitleWithoutSpace(tail);
  }

  /** The title part starts with whitespace. */
  lemma NoTitleWithoutSpace(r: string)
    requires r != [] && !IsSpace(r[0])
    ensures MatchTitle(r).None?
  {
  }

  /** The stem drops the text from the last dot on, as for "002 badname.srt". */
  lemma StemDropsSuffix(base: string, ext: string)
    requires base != [] && ext != [] && '.' !in ext
    ensures Stem(base + ("." + ext)) == base
  {
    var name := base + ("." + ext);
    assert name[|base|] == '.';
    assert forall j :: |base| < j < |name| ==> name[j] == ext[j - |base| - 1];
    LastIndexAfter(name, |base|, '.');
    assert name[..|base|] == base;
  }

  lemma {:induction false} FileNameWithoutSlash(s: string)
    requires '/' !in s
    ensures FileName(s) == s
    decreases |s|
  {
    if s != [] {
      FileNameWithoutSlash(s[..|s| - 1]);
    }
  }

  lemma {:induction false} WordRunStopsAt(w: string, rest: string)
    requires AllWord(w) && rest != [] && !IsWordChar(rest[0])
    ensures WordRun(w + rest) == |w|
    decreases |w|
  {
    if w != [] {
      assert (w + rest)[1..] == w[1..] + rest;
      WordRunStopsAt(w[1..], rest);
    }
  }

  lemma {:induction false} LastIndexAfter(s: string, i: nat, c: char)
    requires i < |s| && s[i] == c && forall j :: i < j < |s| ==> s[j] != c
    ensures LastIndexOf(s, c) == i
    decreases |s|
  {
    if i < |s| - 1 {
      LastIndexAfter(s[..|s| - 1], i, c);
    }
  }

  /** The sort key `(lec.order or "", lec.title)`, compared as Python compares tuples. */
  predicate LectureKeyLe(a: Lecture, b: Lecture) {
    StrLt(a.order, b.order) || (a.order == b.order && StrLe(a.title, b.title))
  }

  lemma LectureKeyTotal()
    ensures Total(LectureKeyLe)
  {
    forall a: Lecture, b: Lecture ensures LectureKeyLe(a, b) || LectureKeyLe(b, a) {
      StrLeTotal(a.order, b.order);
      StrLeTotal(a.title, b.title);
    }
  }

  /** The ordering step of `parse_course_folder`. */
  function SortLectures(lectures: seq<Lecture>): seq<Lecture> {
    SortBy(lectures, LectureKeyLe)
  }

  /** The lectures come out in (order, title) order, none lost or added. */
  lemma SortLecturesCorrect(lectures: seq<Lecture>)
    ensures multiset(SortLectures(lectures)) == multiset(lectures)
    ensures SortedBy(SortLectures(lectures), LectureKeyLe)
  {
    LectureKeyTotal();
    SortByCorrect(lectures, LectureKeyLe);
  }

  lemma LectureKeyTransitive()
    ensures Transitive(LectureKeyLe)
  {
    forall a: Lecture, b: Lecture, c: Lecture | LectureKeyLe(a, b) && LectureKeyLe(b, c)
      ensures LectureKeyLe(a, c)
    {
      if a.order == b.order && b.order == c.order {
        StrLeTransitive(a.title, b.title, c.title);
      } else if StrLt(a.order, b.order) && StrLt(b.order, c.order) {
        StrLeTransitive(a.order, b.order, c.order);
        if a.order == c.order {
          StrLeAntisymmetric(b.order, c.order);
        }
      }
    }
  }

  /** Two lectures are tied under the sort key exactly when they share both
      order and title. */
  lemma LectureKeyTies(a: Lecture, b: Lecture)
    ensures LectureKeyLe(a, b) && LectureKeyLe(b, a) <==> a.order == b.order && a.title == b.title
  {
    StrLeTotal(a.title, b.title);
    if StrLe(a.order, b.order) && StrLe(b.order, a.order) {
      StrLeAntisymmetric(a.order, b.order);
    }
    if StrLe(a.title, b.title) && StrLe(b.title, a.title) {
      StrLeAntisymmetric(a.title, b.title);
    }
  }

  /** `list.sort` is stable: lectures with the same (order, title) key come
      out in listing order. */
  lemma SortLecturesStable(lectures: seq<Lecture>, key: Lecture)
    ensures Ties(SortLectures(lectures), key, LectureKeyLe) == Ties(lectures, key, LectureKeyLe)
  {
    LectureKeyTransitive();
    SortByStable(lectures, key, LectureKeyLe);
  }

  function LectureOf(path: string): Lecture {
    ParseFilename(path).0
  }

  function WarningsOf(path: string): seq<string> {
    ParseFilename(path).1
  }

  /** The lectures of the listed files, in listing order, before sorting. */
  function ParsedLectures(files: seq<string>): seq<Lecture> {
    MapSeq(LectureOf, files)
  }

  /** The warnings of the listed files, in listing order. */
  function ParseWarnings(files: seq<string>): seq<string> {
    FlatMap(WarningsOf, files)
  }

  /** `parse_course_folder` over the sorted listing of the folder's ".srt"
      files: every file parsed in turn, its warnings collected, then the
      lectures sorted by (order, title). */
  method ParseCourseFolder(files: seq<string>) returns (lectures: seq<Lecture>, warnings: seq<string>)
    ensures lectures == SortLectures(ParsedLectures(files))
    ensures warnings == ParseWarnings(files)
  {
    lectures, warnings := ParseEach(files);
    lectures := SortLectures(lectures);
  }

  /** The loop of `parse_course_folder`: each file parsed in listing order,
      its lecture appended and its warnings collected. */
  method ParseEach(files: seq<string>) returns (lectures: seq<Lecture>, warnings: seq<string>)
    ensures lectures == ParsedLectures(files)
    ensures warnings == ParseWarnings(files)
  {
    lectures := [];
    warnings := [];
    for i := 0 to |files|
      invariant lectures == MapSeq(LectureOf, files[..i])
      invariant warnings == FlatMap(WarningsOf, files[..i])
    {
      var parsed := ParseFilename(files[i]);
      ParseStep(files, i);
      lectures := lectures + [parsed.0];
      warnings := warnings + parsed.1;
    }
    assert files[..|files|] == files;
  }

  lemma ParseStep(files: seq<string>, i: nat)
    requires i < |files|
    ensures MapSeq(LectureOf, files[..i + 1]) == MapSeq(LectureOf, files[..i]) + [LectureOf(files[i])]
    ensures FlatMap(WarningsOf, files[..i + 1]) == FlatMap(WarningsOf, files[..i]) + WarningsOf(files[i])
  {
    assert files[..i + 1][..i] == files[..i];
  }

  /** No warning is raised exactly when every file name matches. */
  lemma ParseWarningsEmptyIff(files: seq<string>)
    ensures ParseWarnings(files) == [] <==> forall i :: 0 <= i < |files| ==> MatchFilename(FileName(files[i])).Some?
  {
    FlatMapEmptyIff(WarningsOf, files);
    forall i | 0 <= i < |files| {
      ParseFilenameCorrect(files[i]);
    }
  }

  /** Each warning names a file of the listing whose name does not match. */
  lemma ParseWarningsSound(files: seq<string>)
    ensures forall w :: w in ParseWarnings(files) ==>
      exists i :: 0 <= i < |files| && MatchFilename(FileName(files[i])).None? && w == MismatchWarning + FileName(files[i])
  {
    FlatMapMembers(WarningsOf, files);
    forall w | w in ParseWarnings(files)
      ensures exists i :: 0 <= i < |files| && MatchFilename(FileName(files[i])).None? && w == MismatchWarning + FileName(files[i])
    {
      var i :| 0 <= i < |files| && w in WarningsOf(files[i]);
      MismatchWarningOnly(files[i], w);
    }
  }

  lemma MismatchWarningOnly(path: string, w: string)
    requires w in WarningsOf(path)
    ensures MatchFilename(FileName(path)).None? && w == MismatchWarning + FileName(path)
  {
    ParseFilenameCorrect(path);
  }

  /** One lecture per file, whatever the names: sorting loses none, and
      the `i`-th file's lecture is among the result. */
  lemma ParseCourseFolderKeepsLectures(files: seq<string>)
    ensures multiset(SortLectures(ParsedLectures(files))) == multiset(ParsedLectures(files))
    ensures |SortLectures(ParsedLectures(files))| == |files|
    ensures forall i :: 0 <= i < |files| ==> LectureOf(files[i]) in SortLectures(ParsedLectures(files))
  {
    SortLecturesCorrect(ParsedLectures(files));
    MapSeqIndex(LectureOf, files);
    assert |multiset(SortLectures(ParsedLectures(files)))| == |multiset(ParsedLectures(files))|;
    forall i | 0 <= i < |files|
      ensures LectureOf(files[i]) in SortLectures(ParsedLectures(files))
    {
      assert ParsedLectures(files)[i] == LectureOf(files[i]);
      assert LectureOf(files[i]) in multiset(ParsedLectures(files));
    }
  }
}
