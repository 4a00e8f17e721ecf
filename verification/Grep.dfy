/**
 * The regular expression matcher of user/grep.c, and what its patterns mean.
 * A C string is the sequence of its characters before the terminating NUL.
 */
module Grep {
  // A pattern is a sequence of items.
  datatype Item = Lit(c: char) | Any | Star(c: char) | End

  // What a pattern says: c* first, then $ at the very end, then . and characters.
  function Parse(re: string): seq<Item>
  {
    if re == "" then []
    else if |re| > 1 && re[1] == '*' then [Star(re[0])] + Parse(re[2..])
    else if re == "$" then [End]
    else [if re[0] == '.' then Any else Lit(re[0])] + Parse(re[1..])
  }

  // Character d is one that c stands for.
  predicate Covers(c: char, d: char) { c == '.' || c == d }

  // The piece of text that an item may stand for.
  predicate Accepts(item: Item, piece: string)
  {
    match item
    case Lit(c) => piece == [c]
    case Any => |piece| == 1
    case Star(c) => forall k :: 0 <= k < |piece| ==> Covers(c, piece[k])
    case End => piece == ""
  }

  function Concat(pieces: seq<string>): string
  {
    if pieces == [] then "" else pieces[0] + Concat(pieces[1..])
  }

  // The pieces are a reading of the beginning of text; End needs all of it.
  predicate Reading(items: seq<Item>, pieces: seq<string>, text: string)
  {
    && |pieces| == |items| && (forall i :: 0 <= i < |items| ==> Accepts(items[i], pieces[i]))
    && Concat(pieces) <= text && (End in items ==> Concat(pieces) == text)
  }

  // Some reading exists at the beginning of text.
  ghost predicate Here(items: seq<Item>, text: string) { exists pieces :: Reading(items, pieces, text) }

  // The pattern matches somewhere in text, or, after ^, at its beginning.
  ghost predicate Found(re: string, text: string)
  {
    if |re| > 0 && re[0] == '^' then Here(Parse(re[1..]), text)
    else exists k :: 0 <= k <= |text| && Here(Parse(re), text[k..])
  }

  // Readings and their first pieces -----------------------------------------------------

  lemma ReadingCons(item: Item, items: seq<Item>, piece: string, pieces: seq<string>, text: string)
    requires piece <= text && item != End
    ensures Reading([item] + items, [piece] + pieces, text) <==>
      Accepts(item, piece) && Reading(items, pieces, text[|piece|..])
  {
    var all := [piece] + pieces;
    var rest := text[|piece|..];
    assert all[0] == piece && all[1..] == pieces && Concat(all) == piece + Concat(pieces);
    assert text == piece + rest;
    assert ([item] + items)[1..] == items;
    assert End in [item] + items <==> End in items;
    if Reading([item] + items, all, text) {
      assert Accepts(([item] + items)[0], all[0]);
      forall i | 0 <= i < |items| ensures Accepts(items[i], pieces[i]) {
        assert Accepts(([item] + items)[i + 1], all[i + 1]);
      }
    }
    if Accepts(item, piece) && Reading(items, pieces, rest) {
      forall i | 0 <= i < |all| ensures Accepts(([item] + items)[i], all[i]) {
        if i > 0 { assert Accepts(items[i - 1], pieces[i - 1]); }
      }
    }
  }

  lemma HereNone(text: string)
    ensures Here([], text)
  {
    assert Reading([], [], text);
  }

  lemma HereEnd(text: string)
    ensures Here([End], text) <==> text == ""
  {
    if text == "" {
      assert Concat([""]) == "";
      assert Reading([End], [""], text);
    }
    if Here([End], text) {
      var pieces :| Reading([End], pieces, text);
      assert pieces == [pieces[0]] && Accepts([End][0], pieces[0]);
      assert Concat(pieces) == "";
    }
  }

  // The rest of the pattern after a first piece.
  lemma HereFrom(item: Item, items: seq<Item>, text: string, n: nat)
    requires n <= |text| && item != End && Accepts(item, text[..n]) && Here(items, text[n..])
    ensures Here([item] + items, text)
  {
    var pieces :| Reading(items, pieces, text[n..]);
    ReadingCons(item, items, text[..n], pieces, text);
    assert Reading([item] + items, [text[..n]] + pieces, text);
  }

  lemma HereSplit(item: Item, items: seq<Item>, text: string) returns (n: nat)
    requires item != End && Here([item] + items, text)
    ensures n <= |text| && Accepts(item, text[..n]) && Here(items, text[n..])
  {
    var all :| Reading([item] + items, all, text);
    var piece, pieces := all[0], all[1..];
    assert all == [piece] + pieces && Concat(all) == piece + Concat(pieces);
    n := |piece|;
    assert text[..n] == piece;
    ReadingCons(item, items, piece, pieces, text);
    assert Reading(items, pieces, text[n..]);
  }

  // The matcher -----------------------------------------------------------------------------

  /** match finds a match exactly when there is one. */
  method Match(re: string, text: string) returns (found: bool)
    ensures found <==> Found(re, text)
  {
    if |re| > 0 && re[0] == '^' {
      found := MatchHere(re[1..], text);
    } else {
      var k := 0;
      found := MatchHere(re, text);
      assert text[0..] == text;
      while !found && k < |text|
        invariant 0 <= k <= |text|
        invariant found ==> Here(Parse(re), text[k..])
        invariant !found ==> forall j :: 0 <= j <= k ==> !Here(Parse(re), text[j..])
        decreases !found, |text| - k
      {
        k := k + 1;
        found := MatchHere(re, text[k..]);
      }
    }
  }

  /** matchhere accepts exactly the texts that begin with a reading of the pattern. */
  method MatchHere(re: string, text: string) returns (found: bool)
    ensures found <==> Here(Parse(re), text)
    decreases |re|, 0
  {
    if re == "" {
      HereNone(text);
      found := true;
    } else if |re| > 1 && re[1] == '*' {
      found := MatchStar(re[0], re[2..], text);
    } else if re == "$" {
      HereEnd(text);
      found := text == "";
    } else if text != "" && (re[0] == '.' || re[0] == text[0]) {
      found := MatchHere(re[1..], text[1..]);
      OneChar(re, text);
    } else {
      OneChar(re, text);
      found := false;
    }
  }

  lemma OneChar(re: string, text: string)
    requires re != "" && !(|re| > 1 && re[1] == '*') && re != "$"
    ensures Here(Parse(re), text) <==>
      text != "" && (re[0] == '.' || re[0] == text[0]) && Here(Parse(re[1..]), text[1..])
  {
    var item := if re[0] == '.' then Any else Lit(re[0]);
    if Here(Parse(re), text) {
      var n := HereSplit(item, Parse(re[1..]), text);
      assert n == 1;
    }
    if text != "" && (re[0] == '.' || re[0] == text[0]) && Here(Parse(re[1..]), text[1..]) {
      assert text[..1] == [text[0]];
      HereFrom(item, Parse(re[1..]), text, 1);
    }
  }

  /** matchstar accepts exactly the texts that begin with characters covered by c
      and then a reading of the rest. */
  method MatchStar(c: char, re: string, text: string) returns (found: bool)
    ensures found <==> Here([Star(c)] + Parse(re), text)
    decreases |re|, 1
  {
    var k := 0;
    found := MatchHere(re, text);
    assert text[0..] == text;
    while !found && k < |text| && (text[k] == c || c == '.')
      invariant 0 <= k <= |text| && Accepts(Star(c), text[..k])
      invariant found ==> Here(Parse(re), text[k..])
      invariant !found ==> forall j :: 0 <= j <= k ==> !Here(Parse(re), text[j..])
      decreases !found, |text| - k
    {
      k := k + 1;
      found := MatchHere(re, text[k..]);
    }
    if found {
      HereFrom(Star(c), Parse(re), text, k);
    } else {
      NoStar(c, Parse(re), text, k);
    }
  }

  lemma NoStar(c: char, items: seq<Item>, text: string, k: nat)
    requires k <= |text| && (k < |text| ==> !Covers(c, text[k]))
    requires forall j :: 0 <= j <= k ==> !Here(items, text[j..])
    ensures !Here([Star(c)] + items, text)
  {
    if Here([Star(c)] + items, text) {
      var n := HereSplit(Star(c), items, text);
    }
  }

  // The line buffer ----------------------------------------------------------------------------

  const BUFSIZE := 1024

  // strchr(text, '\n'): the place of the first newline, or the length when there
  // is none before the end or a NUL.
  function Eol(text: string): (q: nat)
    ensures q <= |text|
    ensures q < |text| ==> text[q] == '\n' && forall k :: 0 <= k < q ==> text[k] != '\n' && text[k] != '\0'
    ensures q == |text| ==> forall k :: 0 <= k < q && text[k] == '\n' ==> exists j :: 0 <= j < k && text[j] == '\0'
  {
    if text == "" || text[0] == '\n' then 0
    else if text[0] == '\0' then |text|
    else 1 + Eol(text[1..])
  }

  // The complete lines of text that match, in order, up to a line with a NUL.
  ghost function Selected(re: string, text: string): string
    decreases |text|
  {
    var q := Eol(text);
    if q == |text| then ""
    else (if Found(re, text[..q]) then text[..q + 1] else "") + Selected(re, text[q + 1..])
  }

  // What follows the last newline found.
  function Tail(text: string): string
    decreases |text|
  {
    var q := Eol(text);
    if q == |text| then text else Tail(text[q + 1..])
  }

  lemma {:induction false} EolThrough(a: string, b: string)
    ensures Eol(a) < |a| ==> Eol(a + b) == Eol(a)
  {
    if a != "" && a[0] != '\n' && a[0] != '\0' {
      EolThrough(a[1..], b);
      assert (a + b)[1..] == a[1..] + b;
    }
  }

  // The first line of text, if it matches.
  ghost function First(re: string, text: string): string
    requires Eol(text) < |text|
  {
    if Found(re, text[..Eol(text)]) then text[..Eol(text) + 1] else ""
  }

  lemma Unfold(re: string, text: string)
    ensures Eol(text) == |text| ==> Selected(re, text) == "" && Tail(text) == text
    ensures Eol(text) < |text| ==>
      var rest := text[Eol(text) + 1..]; Selected(re, text) == First(re, text) + Selected(re, rest) && Tail(text) == Tail(rest)
  {
    hide Found;
  }

  // Reading on from what is left of a.
  lemma {:induction false} Append(re: string, a: string, b: string)
    ensures Selected(re, a + b) == Selected(re, a) + Selected(re, Tail(a) + b)
    ensures Tail(a + b) == Tail(Tail(a) + b)
    decreases |a|
  {
    hide Selected, Tail, Found, Eol;
    var q := Eol(a);
    Unfold(re, a);
    Unfold(re, a + b);
    if q < |a| {
      EolThrough(a, b);
      assert (a + b)[q + 1..] == a[q + 1..] + b;
      assert (a + b)[..q] == a[..q] && (a + b)[..q + 1] == a[..q + 1];
      Append(re, a[q + 1..], b);
    }
  }

  lemma {:induction false} TailShort(a: string, b: string)
    ensures |Tail(a + b)| <= |Tail(a)| + |b|
    decreases |a|
  {
    hide Tail, Eol, Selected, Found;
    var q := Eol(a);
    Unfold("", a);
    Unfold("", a + b);
    if q < |a| {
      EolThrough(a, b);
      assert (a + b)[q + 1..] == a[q + 1..] + b;
      TailShort(a[q + 1..], b);
    } else {
      TailSize(a + b);
    }
  }

  lemma {:induction false} TailSize(a: string)
    ensures |Tail(a)| <= |a|
    decreases |a|
  {
    if Eol(a) < |a| { TailSize(a[Eol(a) + 1..]); }
  }

  // grep's inner loop: write the complete lines of buf that match, keep the rest.
  method Scan(re: string, buf: string) returns (out: string, rest: string)
    ensures out == Selected(re, buf) && rest == Tail(buf)
  {
    hide Selected, Tail, Eol;
    out, rest := "", buf;
    while Eol(rest) < |rest|
      invariant out + Selected(re, rest) == Selected(re, buf) && Tail(rest) == Tail(buf)
      decreases |rest|
    {
      var q := Eol(rest);
      var found := Match(re, rest[..q]);
      ScanStep(re, rest, out);
      if found {
        out := out + rest[..q + 1];
      }
      rest := rest[q + 1..];
    }
    ScanEnd(re, rest, out);
  }

  lemma ScanStep(re: string, rest: string, out: string)
    requires Eol(rest) < |rest|
    ensures Tail(rest) == Tail(rest[Eol(rest) + 1..])
    ensures var q := Eol(rest);
      out + Selected(re, rest) == (if Found(re, rest[..q]) then out + rest[..q + 1] else out) + Selected(re, rest[q + 1..])
  {
    hide Found, Selected, Tail;
    Unfold(re, rest);
  }

  lemma ScanEnd(re: string, rest: string, out: string)
    requires Eol(rest) == |rest|
    ensures Tail(rest) == rest && out + Selected(re, rest) == out
  {
  }

  // Some k characters into the input the buffer is full without a newline to be found.
  predicate Stuck(input: string, k: nat)
  {
    k < |input| && |Tail(input[..k])| >= BUFSIZE - 1
  }

  // Lines ----------------------------------------------------------------------------------------

  // The place of the first newline, or the length.
  function Newline(text: string): (q: nat)
    ensures q <= |text| && '\n' !in text[..q] && (q < |text| ==> text[q] == '\n')
  {
    if text == "" || text[0] == '\n' then 0 else 1 + Newline(text[1..])
  }

  // The lines of a text, whatever characters they hold; the last may lack its newline.
  function Lines(text: string): seq<string>
    decreases |text|
  {
    var q := Newline(text);
    if text == "" then [] else if q == |text| then [text] else [text[..q]] + Lines(text[q + 1..])
  }

  // The lines that match, with their newlines.
  ghost function Matching(re: string, lines: seq<string>): string
  {
    if lines == [] then ""
    else (if Found(re, lines[0]) then lines[0] + "\n" else "") + Matching(re, lines[1..])
  }

  // The lines that grep finds in a text.
  function Seen(text: string): seq<string>
    decreases |text|
  {
    var q := Eol(text);
    if q == |text| then [] else [text[..q]] + Seen(text[q + 1..])
  }

  // What grep needs of a file to look at all its lines.
  predicate Plain(input: string)
  {
    && '\0' !in input && (input == "" || input[|input| - 1] == '\n')
    && forall l :: l in Lines(input) ==> |l| < BUFSIZE - 1
  }

  lemma {:induction false} EolNewline(text: string)
    ensures Eol(text) < |text| ==> Newline(text) == Eol(text) && '\0' !in text[..Eol(text)]
    ensures '\0' !in text ==> Eol(text) == Newline(text)
  {
    if text != "" && text[0] != '\n' && text[0] != '\0' {
      EolNewline(text[1..]);
      var q := Eol(text[1..]);
      assert text[..q + 1] == [text[0]] + text[1..][..q];
    }
  }

  lemma {:induction false} SeenUnfold(text: string)
    ensures Eol(text) == |text| ==> Seen(text) == [] && Tail(text) == text
    ensures Eol(text) < |text| ==>
      var q := Eol(text);
      && Seen(text) == [text[..q]] + Seen(text[q + 1..]) && Tail(text) == Tail(text[q + 1..])
      && Lines(text) == [text[..q]] + Lines(text[q + 1..])
  {
    hide Eol, Newline;
    EolNewline(text);
  }

  lemma {:induction false} SelectedSeen(re: string, text: string)
    ensures Selected(re, text) == Matching(re, Seen(text))
    decreases |text|
  {
    hide Found, Eol, Seen, Tail, Lines;
    SeenUnfold(text);
    var q := Eol(text);
    if q < |text| {
      SelectedSeen(re, text[q + 1..]);
      LineAt(text, q);
    }
  }

  lemma {:induction false} LineAt(text: string, q: nat)
    requires q < |text| && q == Eol(text)
    ensures text[..q + 1] == text[..q] + "\n"
  {
  }

  /** Grep finds every line of a text exactly when nothing is left over. */
  lemma {:induction false} SeenAll(text: string)
    ensures Seen(text) <= Lines(text) && (Seen(text) == Lines(text) <==> Tail(text) == "")
    decreases |text|
  {
    hide Eol, Seen, Lines, Tail;
    SeenUnfold(text);
    if Eol(text) < |text| {
      SeenAll(text[Eol(text) + 1..]);
    } else {
      LinesNone(text);
    }
  }

  lemma LinesNone(text: string)
    ensures Lines(text) == [] <==> text == ""
  {
  }

  /** Nothing is left over exactly when every line is complete and free of NULs. */
  lemma {:induction false} TailEmpty(text: string)
    ensures Tail(text) == "" <==> text == "" || ('\0' !in text && text[|text| - 1] == '\n')
    decreases |text|
  {
    hide Tail, Seen, Lines, Eol;
    SeenUnfold(text);
    EolNewline(text);
    var q := Eol(text);
    if q < |text| {
      var rest := text[q + 1..];
      TailEmpty(rest);
      LineAt(text, q);
      assert text == text[..q + 1] + rest;
      assert '\0' in text <==> '\0' in rest;
      assert rest != "" ==> rest[|rest| - 1] == text[|text| - 1];
    } else if text != "" && '\0' !in text {
      assert text == text[..Newline(text)];
      assert text[|text| - 1] in text;
    }
  }

  // The lines of the beginning of a text that is cut at k: the first ones.
  lemma {:induction false} SeenPrefix(text: string, k: nat)
    requires k <= |text|
    ensures Seen(text[..k]) <= Seen(text) && |Tail(text[..k])| <= k
    ensures k < |text| ==> |Seen(text[..k])| < |Lines(text)|
    decreases |text|
  {
    hide Eol, Seen, Lines, Tail;
    var a := text[..k];
    SeenUnfold(a);
    SeenUnfold(text);
    var q := Eol(a);
    if q < |a| {
      EolThrough(a, text[k..]);
      assert text == a + text[k..];
      assert text[q + 1..][..k - q - 1] == a[q + 1..] && text[..q] == a[..q];
      SeenPrefix(text[q + 1..], k - q - 1);
    } else {
      LinesNone(text);
    }
  }

  // Cutting a text after its first line, or inside it.
  lemma {:induction false} StuckFirst(text: string, k: nat)
    requires Eol(text) < |text| && k <= |text|
    ensures Tail(text[..k]) == if k <= Eol(text) then text[..k] else Tail(text[Eol(text) + 1..][..k - Eol(text) - 1])
  {
    hide Eol, Seen, Lines, Tail;
    var q, a := Eol(text), text[..k];
    if k <= q {
      EolThrough(a, text[k..]);
      assert text == a + text[k..];
      SeenUnfold(a);
    } else {
      EolOf(text, k);
      SeenUnfold(a);
      assert a[q + 1..] == text[q + 1..][..k - q - 1];
    }
  }

  lemma {:induction false} EolOf(text: string, k: nat)
    requires Eol(text) < k <= |text|
    ensures Eol(text[..k]) == Eol(text)
  {
    if text[0] != '\n' {
      EolOf(text[1..], k - 1);
      assert text[..k][1..] == text[1..][..k - 1];
    }
  }

  /** In a text of complete lines without NULs, the buffer fills up exactly when
      some line has 1023 characters or more. */
  lemma {:induction false} StuckLines(text: string)
    requires Tail(text) == ""
    ensures (forall k: nat :: !Stuck(text, k)) <==> forall l :: l in Lines(text) ==> |l| < BUFSIZE - 1
    decreases |text|
  {
    hide Eol, Seen, Lines, Tail;
    SeenUnfold(text);
    LinesNone(text);
    if text != "" {
      var q := Eol(text);
      var first, rest := text[..q], text[q + 1..];
      StuckLines(rest);
      if q >= BUFSIZE - 1 {
        StuckFirst(text, BUFSIZE - 1);
        assert Stuck(text, BUFSIZE - 1);
        assert Lines(text)[0] == first && first in Lines(text);
      } else {
        forall k: nat ensures Stuck(text, k) <==> q + 1 <= k && Stuck(rest, k - q - 1) {
          if k < |text| { StuckFirst(text, k); }
        }
        StuckShift(text, rest, q);
        assert forall l :: l in Lines(text) <==> l == first || l in Lines(rest);
      }
    }
  }

  lemma StuckShift(text: string, rest: string, q: nat)
    requires forall k: nat :: Stuck(text, k) <==> q + 1 <= k && Stuck(rest, k - q - 1)
    ensures (forall k: nat :: !Stuck(text, k)) <==> forall k: nat :: !Stuck(rest, k)
  {
    hide Stuck;
    if k: nat :| Stuck(rest, k) {
      assert Stuck(text, k + q + 1);
    }
  }

  /** Whether grep, having got as far as pos, has looked at every line. */
  lemma {:induction false} LooksAtAll(input: string, pos: nat)
    requires pos <= |input| && (pos == |input| <==> forall k: nat :: !Stuck(input, k))
    ensures Seen(input[..pos]) <= Lines(input)
    ensures Seen(input[..pos]) == Lines(input) <==> Plain(input)
  {
    hide Seen, Lines, Tail, Stuck;
    SeenPrefix(input, pos);
    SeenAll(input);
    TailEmpty(input);
    if pos == |input| { assert input[..pos] == input; }
    if Tail(input) == "" { StuckLines(input); }
  }

  /** A line of 1023 characters, a NUL and a last line without its newline: each
      keeps grep from looking at a line. */
  lemma LongLine()
    ensures var line := seq(BUFSIZE - 1, _ => 'a'); !Plain(line + "\n") && Stuck(line + "\n", BUFSIZE - 1)
  {
    var line := seq(BUFSIZE - 1, _ => 'a');
    var text := line + "\n";
    NoNewline(line);
    EolNewline(line);
    assert text[..BUFSIZE - 1] == line;
    assert Tail(line) == line;
    TailEmpty(text);
    StuckLines(text);
  }

  lemma {:induction false} NoNewline(text: string)
    requires forall i :: 0 <= i < |text| ==> text[i] == 'a'
    ensures Eol(text) == Newline(text) == |text|
  {
    if text != "" { NoNewline(text[1..]); }
  }

  lemma NulLine()
    ensures Seen("\0\na\n") == [] && Lines("\0\na\n") == ["\0", "a"]
  {
    var text := "\0\na\n";
    assert Eol(text) == 4;
    assert Newline(text) == 1 && text[..1] == "\0" && text[2..] == "a\n";
    var rest := "a\n";
    assert Newline(rest) == 1 && rest[..1] == "a" && rest[2..] == "";
  }

  lemma LastLine()
    ensures Seen("a") == [] && Lines("a") == ["a"]
  {
    assert "a"[1..] == "";
  }

  /** grep looks at the first lines of the file, and writes those of them that
      match, however the file is cut into reads of sizes[0], sizes[1], ...
      characters.  These are all the lines exactly when each of them has fewer
      than 1023 characters, none has a NUL, and the last ends in a newline. */
  method GrepFile(re: string, input: string, sizes: seq<nat>) returns (out: string, pos: nat)
    ensures pos <= |input| && Seen(input[..pos]) <= Lines(input)
    ensures out == Matching(re, Seen(input[..pos]))
    ensures Seen(input[..pos]) == Lines(input) <==> Plain(input)
    ensures pos == |input| <==> forall k: nat :: !Stuck(input, k)
    ensures pos < |input| ==> |Tail(input[..pos])| == BUFSIZE - 1
  {
    hide Selected, Tail, Stuck, Plain, Seen, Lines, Matching;
    GrepStart(re, input);
    out, pos := "", 0;
    var buf, left, turn := "", input, 0;
    var n := Read(left, BUFSIZE - 1, sizes, 0);
    while n > 0
      invariant pos <= |input| && left == input[pos..] && |buf| <= BUFSIZE - 1
      invariant out == Selected(re, input[..pos]) && buf == Tail(input[..pos])
      invariant 0 <= n <= |left| && |buf| + n <= BUFSIZE - 1 && (n == 0 ==> |left| == 0 || |buf| == BUFSIZE - 1)
      invariant forall k: nat :: Stuck(input, k) ==> pos <= k
      decreases |left|
    {
      Advance(re, input, pos, n);
      assert left[..n] == input[pos..pos + n] && left[n..] == input[pos + n..];
      buf := buf + left[..n];
      left := left[n..];
      pos := pos + n;
      var line;
      line, buf := Scan(re, buf);
      out := out + line;
      turn := turn + 1;
      n := Read(left, BUFSIZE - 1 - |buf|, sizes, turn);
    }
    GrepEnd(input, pos);
    SelectedSeen(re, input[..pos]);
    LooksAtAll(input, pos);
  }

  lemma GrepStart(re: string, input: string)
    ensures Selected(re, input[..0]) == "" && Tail(input[..0]) == ""
  {
  }

  lemma GrepEnd(input: string, pos: nat)
    requires pos <= |input| && forall k: nat :: Stuck(input, k) ==> pos <= k
    ensures pos == |input| ==> forall k: nat :: !Stuck(input, k)
    ensures pos < |input| && |Tail(input[..pos])| == BUFSIZE - 1 ==> Stuck(input, pos)
  {
  }

  // A read of at most max characters returns at least one, if it can.
  method Read(left: string, max: nat, sizes: seq<nat>, turn: nat) returns (n: nat)
    ensures n <= |left| && n <= max && (n == 0 ==> |left| == 0 || max == 0)
  {
    n := if |left| < max then |left| else max;
    if turn < |sizes| && 0 < sizes[turn] < n { n := sizes[turn]; }
  }

  lemma Advance(re: string, input: string, pos: nat, n: nat)
    requires pos + n <= |input| && |Tail(input[..pos])| + n <= BUFSIZE - 1
    requires forall k: nat :: Stuck(input, k) ==> pos <= k
    ensures var buf := Tail(input[..pos]) + input[pos..pos + n];
      && Selected(re, input[..pos + n]) == Selected(re, input[..pos]) + Selected(re, buf)
      && Tail(input[..pos + n]) == Tail(buf) && |Tail(buf)| <= BUFSIZE - 1
    ensures forall k: nat :: Stuck(input, k) ==> pos + n <= k
  {
    hide Selected, Tail, Eol;
    assert input[..pos + n] == input[..pos] + input[pos..pos + n];
    Append(re, input[..pos], input[pos..pos + n]);
    TailSize(Tail(input[..pos]) + input[pos..pos + n]);
    forall k: nat | Stuck(input, k) ensures pos + n <= k {
      if k < pos + n {
        assert input[..k] == input[..pos] + input[pos..k];
        TailShort(input[..pos], input[pos..k]);
      }
    }
  }
}
