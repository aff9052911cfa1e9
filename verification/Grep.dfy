/**
 The pattern matcher and the line loop of user/grep.c.
 */
module Grep {
  import opened Common

  // ---- What a pattern means ----

  // One character, or any number of them.
  datatype Item = One(c: char) | Star(c: char)

  predicate Fits(c: char, x: char) { c == '.' || c == x }

  /** The items of a pattern after any ^, and whether it ends in $. */
  function Items(re: string): seq<Item> {
    if re == "" || re == "$" then []
    else if |re| > 1 && re[1] == '*' then [Star(re[0])] + Items(re[2..])
    else [One(re[0])] + Items(re[1..])
  }

  predicate Anchored(re: string) {
    if re == "" then false
    else if re == "$" then true
    else if |re| > 1 && re[1] == '*' then Anchored(re[2..])
    else Anchored(re[1..])
  }

  predicate ItemMatches(item: Item, part: string) {
    match item
    case One(c) => |part| == 1 && Fits(c, part[0])
    case Star(c) => forall x :: x in part ==> Fits(c, x)
  }

  function Concat(parts: seq<string>): string { if parts == [] then "" else parts[0] + Concat(parts[1..]) }

  /** text begins with one part for each item, in order; an anchored pattern takes all of it. */
  ghost predicate Spells(items: seq<Item>, anchored: bool, text: string, parts: seq<string>, rest: string) {
    && |parts| == |items| && (forall i :: 0 <= i < |items| ==> ItemMatches(items[i], parts[i]))
    && text == Concat(parts) + rest && (anchored ==> rest == "")
  }

  ghost predicate MeansHere(re: string, text: string) {
    exists parts, rest :: Spells(Items(re), Anchored(re), text, parts, rest)
  }

  /** The pattern holds at the start of the text after ^, and at some position without it. */
  ghost predicate Means(re: string, text: string) {
    if re != "" && re[0] == '^' then MeansHere(re[1..], text)
    else exists i :: 0 <= i <= |text| && MeansHere(re, text[i..])
  }

  // ---- The recursive matcher ----

  predicate Here(re: string, text: string)
    decreases |re|, |text|
  {
    if re == "" then true
    else if |re| > 1 && re[1] == '*' then StarHere(re[0], re[2..], text)
    else if re == "$" then text == ""
    else text != "" && Fits(re[0], text[0]) && Here(re[1..], text[1..])
  }

  predicate StarHere(c: char, re: string, text: string)
    decreases |re|, |text| + 1
  {
    Here(re, text) || (text != "" && Fits(c, text[0]) && StarHere(c, re, text[1..]))
  }

  lemma SpellsCons(item: Item, items: seq<Item>, anchored: bool, text: string, k: nat, parts: seq<string>, rest: string)
    requires k <= |text| && ItemMatches(item, text[..k]) && Spells(items, anchored, text[k..], parts, rest)
    ensures Spells([item] + items, anchored, text, [text[..k]] + parts, rest)
  {
    var all := [text[..k]] + parts;
    assert all[1..] == parts;
    assert text == text[..k] + text[k..];
  }

  lemma SpellsHead(item: Item, items: seq<Item>, anchored: bool, text: string, parts: seq<string>, rest: string)
    requires Spells([item] + items, anchored, text, parts, rest)
    ensures var k := |parts[0]|;
            k <= |text| && parts[0] == text[..k] && ItemMatches(item, text[..k])
              && Spells(items, anchored, text[k..], parts[1..], rest)
  {
    var k := |parts[0]|;
    assert text == parts[0] + (Concat(parts[1..]) + rest);
    forall i | 0 <= i < |items| ensures ItemMatches(items[i], parts[1..][i]) {
      assert ([item] + items)[i + 1] == items[i];
    }
    assert ItemMatches(([item] + items)[0], parts[0]);
  }

  // The first k characters match item, and what follows the rest of the pattern.
  ghost predicate SplitAt(item: Item, re: string, text: string, k: nat) {
    k <= |text| && ItemMatches(item, text[..k]) && MeansHere(re, text[k..])
  }

  /** A pattern holds when its first item takes some prefix of the text and the rest of it holds after that. */
  lemma MeansFirst(re: string, item: Item, tail: string, text: string)
    requires Items(re) == [item] + Items(tail) && Anchored(re) == Anchored(tail)
    ensures MeansHere(re, text) <==> exists k: nat :: SplitAt(item, tail, text, k)
  {
    if MeansHere(re, text) {
      var parts, rest :| Spells(Items(re), Anchored(re), text, parts, rest);
      SpellsHead(item, Items(tail), Anchored(tail), text, parts, rest);
      assert SplitAt(item, tail, text, |parts[0]|);
    }
    if k: nat :| SplitAt(item, tail, text, k) {
      var parts, rest :| Spells(Items(tail), Anchored(tail), text[k..], parts, rest);
      SpellsCons(item, Items(tail), Anchored(tail), text, k, parts, rest);
    }
  }

  /** The matcher is right: it succeeds exactly when the pattern's meaning holds. */
  lemma {:induction false} HereMeans(re: string, text: string)
    ensures Here(re, text) <==> MeansHere(re, text)
    decreases |re|, |text|
  {
    hide Spells;
    if re == "" {
      EmptyMeans(text);
    } else if |re| > 1 && re[1] == '*' {
      StarMeans(re[0], re[2..], text);
      MeansFirst(re, Star(re[0]), re[2..], text);
    } else if re == "$" {
      EndMeans(text);
    } else {
      MeansFirst(re, One(re[0]), re[1..], text);
      if text != "" {
        HereMeans(re[1..], text[1..]);
        assert text[..1] == [text[0]];
        assert Fits(re[0], text[0]) && MeansHere(re[1..], text[1..]) ==> SplitAt(One(re[0]), re[1..], text, 1);
      }
    }
  }

  lemma EmptyMeans(text: string)
    ensures MeansHere("", text)
  {
    assert Spells(Items(""), Anchored(""), text, [], text);
  }

  lemma EndMeans(text: string)
    ensures MeansHere("$", text) <==> text == ""
  {
    assert Items("$") == [] && Anchored("$");
    if text == "" {
      assert Spells(Items("$"), Anchored("$"), text, [], "");
    }
  }

  lemma {:induction false} StarMeans(c: char, re: string, text: string)
    ensures StarHere(c, re, text) <==> exists k: nat :: SplitAt(Star(c), re, text, k)
    decreases |re|, |text| + 1
  {
    HereMeans(re, text);
    assert text[..0] == "" && text[0..] == text;
    assert MeansHere(re, text) <==> SplitAt(Star(c), re, text, 0);
    if text != "" {
      StarMeans(c, re, text[1..]);
      forall k: nat ensures Fits(c, text[0]) ==>
             (SplitAt(Star(c), re, text[1..], k) <==> SplitAt(Star(c), re, text, k + 1)) {
        StarShift(c, re, text, k);
      }
      forall k: nat | k > 0 && SplitAt(Star(c), re, text, k) ensures Fits(c, text[0]) {
        assert text[..k][0] == text[0];
      }
      if StarHere(c, re, text[1..]) && Fits(c, text[0]) {
        var k: nat :| SplitAt(Star(c), re, text[1..], k);
        assert SplitAt(Star(c), re, text, k + 1);
      }
      if k: nat :| SplitAt(Star(c), re, text, k) && k > 0 {
        assert SplitAt(Star(c), re, text, (k - 1) + 1);
        assert SplitAt(Star(c), re, text[1..], k - 1);
      }
    }
  }

  lemma StarShift(c: char, re: string, text: string, k: nat)
    requires text != ""
    ensures Fits(c, text[0]) ==> (SplitAt(Star(c), re, text[1..], k) <==> SplitAt(Star(c), re, text, k + 1))
  {
    if k + 1 <= |text| {
      assert text[..k + 1] == [text[0]] + text[1..][..k];
      assert text[1..][k..] == text[k + 1..];
      forall x ensures x in text[..k + 1] <==> x == text[0] || x in text[1..][..k] {}
    }
  }

  /** match() */
  predicate Match(re: string, text: string) {
    if re != "" && re[0] == '^' then Here(re[1..], text) else exists i :: 0 <= i <= |text| && Here(re, text[i..])
  }

  lemma MatchMeans(re: string, text: string)
    ensures Match(re, text) <==> Means(re, text)
  {
    if re != "" && re[0] == '^' {
      HereMeans(re[1..], text);
    } else {
      forall i | 0 <= i <= |text| ensures Here(re, text[i..]) <==> MeansHere(re, text[i..]) {
        HereMeans(re, text[i..]);
      }
    }
  }

  // ---- The matcher as it runs ----

  method MatchHere(re: string, text: string) returns (r: bool)
    ensures r == Here(re, text)
    decreases |re|, |text|
  {
    if re == "" {
      return true;
    }
    if |re| > 1 && re[1] == '*' {
      r := MatchStar(re[0], re[2..], text);
      return;
    }
    if re == "$" {
      return text == "";
    }
    if text != "" && (re[0] == '.' || re[0] == text[0]) {
      r := MatchHere(re[1..], text[1..]);
      return;
    }
    r := false;
  }

  method MatchStar(c: char, re: string, text: string) returns (r: bool)
    ensures r == StarHere(c, re, text)
    decreases |re|, |text| + 1
  {
    var t := text;
    while true
      invariant |t| <= |text| && StarHere(c, re, t) == StarHere(c, re, text)
      decreases |t|
    {
      var here := MatchHere(re, t);
      if here {
        return true;
      }
      if t == "" || !(t[0] == c || c == '.') {
        return false;
      }
      t := t[1..];
    }
  }

  /** The pattern's meaning decides the result. */
  method MatchText(re: string, text: string) returns (r: bool)
    ensures r == Match(re, text) && (r <==> Means(re, text))
  {
    MatchMeans(re, text);
    if re != "" && re[0] == '^' {
      r := MatchHere(re[1..], text);
      return;
    }
    var i := 0;
    while true
      invariant 0 <= i <= |text| && forall k :: 0 <= k < i ==> !Here(re, text[k..])
      decreases |text| - i
    {
      var here := MatchHere(re, text[i..]);
      if here {
        return true;
      }
      if i == |text| {
        return false;
      }
      i := i + 1;
    }
  }

  // ---- Lines ----

  const BUFSIZE := 1024

  // strchr(): where c is in s before any NUL, or |s| if it is not.
  function Strchr(s: string, c: char): (i: nat)
    ensures i <= |s|
    ensures i < |s| ==> s[i] == c && forall k :: 0 <= k < i ==> s[k] != c && s[k] != NUL
  {
    if s == "" || s[0] == NUL then |s|
    else if s[0] == c then 0
    else 1 + Strchr(s[1..], c)
  }

  /**
   What grep() prints of a stream: the matching lines, up to the first line that has no end,
   holds a NUL, or does not fit the buffer with its newline.
   */
  function Filter(re: string, s: string): string
    decreases |s|
  {
    var i := Strchr(s, '\n');
    if i == |s| || i + 1 >= BUFSIZE then ""
    else (if Match(re, s[..i]) then s[..i + 1] else "") + Filter(re, s[i + 1..])
  }

  /** A line that fits the buffer, found in what has been read, is the stream's first line. */
  lemma {:induction false} StrchrPrefix(a: string, b: string, c: char)
    requires c != NUL && Strchr(a, c) < |a|
    ensures Strchr(a + b, c) == Strchr(a, c)
    decreases |a|
  {
    assert (a + b)[1..] == a[1..] + b;
    if a[0] != c {
      StrchrPrefix(a[1..], b, c);
    }
  }

  /** Where what has been read holds no line, the stream has none that ends within it. */
  lemma {:induction false} StrchrBeyond(a: string, b: string, c: char)
    requires c != NUL && Strchr(a, c) == |a|
    ensures Strchr(a + b, c) >= |a|
    decreases |a|
  {
    if a != "" {
      assert (a + b)[1..] == a[1..] + b;
      if a[0] != NUL && a[0] != c {
        StrchrBeyond(a[1..], b, c);
      }
    }
  }

  /** strchr(buf + p, '\\n') in a buffer that holds m characters: m if there is none. */
  method FindNewline(buf: array<char>, p: nat, m: nat) returns (q: nat)
    requires p <= m <= buf.Length
    ensures p <= q <= m && q == p + Strchr(buf[p..m], '\n')
    ensures q < m ==> buf[q] == '\n'
  {
    q := p;
    while q < m
      invariant p <= q <= m && q + Strchr(buf[q..m], '\n') == p + Strchr(buf[p..m], '\n')
    {
      assert buf[q..m][1..] == buf[q + 1..m];
      if buf[q] == NUL {
        return m;
      }
      if buf[q] == '\n' {
        return;
      }
      q := q + 1;
    }
  }

  /** One line of the stream, dealt with. */
  lemma FilterLine(re: string, a: string, rest: string)
    requires Strchr(a, '\n') < |a| < BUFSIZE
    ensures var i := Strchr(a, '\n');
            Filter(re, a + rest) == (if Match(re, a[..i]) then a[..i + 1] else "") + Filter(re, a[i + 1..] + rest)
  {
    hide Match, Strchr;
    var i := Strchr(a, '\n');
    StrchrPrefix(a, rest, '\n');
    assert (a + rest)[..i] == a[..i] && (a + rest)[..i + 1] == a[..i + 1] && (a + rest)[i + 1..] == a[i + 1..] + rest;
  }

  /** Without a line in what is at hand, nothing more is printed if the buffer is full or the stream at its end. */
  lemma FilterStuck(re: string, a: string, rest: string)
    requires Strchr(a, '\n') == |a| && (|a| + 1 >= BUFSIZE || rest == "")
    ensures Filter(re, a + rest) == ""
  {
    hide Match, Strchr;
    StrchrBeyond(a, rest, '\n');
    assert rest == "" ==> a + rest == a;
  }

  lemma LineStep(re: string, a: string, p: nat, q: nat, rest: string)
    requires p <= q < |a| < BUFSIZE && q == p + Strchr(a[p..], '\n')
    ensures Filter(re, a[p..] + rest) ==
            (if Match(re, a[p..q]) then a[p..q + 1] else "") + Filter(re, a[q + 1..] + rest)
  {
    hide Filter, Match;
    FilterLine(re, a[p..], rest);
    assert a[p..][..q - p] == a[p..q] && a[p..][..q - p + 1] == a[p..q + 1] && a[p..][q - p + 1..] == a[q + 1..];
  }

  /** One turn of grep()'s inner loop: the line from p up to the newline at q is written if it matches. */
  method DoLine(re: string, buf: array<char>, p: nat, q: nat, m: nat, ghost a: string) returns (printed: string)
    requires p <= q < m == |a| <= buf.Length && buf[p..m] == a[p..] && a[q] == '\n'
    modifies buf
    ensures printed == if Match(re, a[p..q]) then a[p..q + 1] else ""
    ensures buf[q + 1..m] == a[q + 1..]
  {
    hide Match, Means;
    assert buf[p..m][..q - p] == a[p..][..q - p];
    assert buf[p..q] == buf[p..m][..q - p];
    assert a[p..q] == a[p..][..q - p];
    ghost var after := buf[q + 1..m];
    assert after == buf[p..m][q + 1 - p..] && a[q + 1..] == a[p..][q + 1 - p..];
    var found := MatchText(re, buf[p..q]);
    buf[q] := NUL;
    printed := "";
    if found {
      buf[q] := '\n';
      printed := buf[p..q + 1];
      assert printed == a[p..q] + ['\n'] == a[p..q + 1];
    }
    assert buf[q + 1..m] == after;
  }

  /** Deals with every line in the buffer; what is after position p is the start of the next one. */
  method Lines(re: string, buf: array<char>, m: nat, ghost rest: string) returns (p: nat, out: string)
    requires m < BUFSIZE == buf.Length
    modifies buf
    ensures p <= m && buf[p..m] == old(buf[p..m]) && Strchr(buf[p..m], '\n') == m - p
    ensures Filter(re, old(buf[..m]) + rest) == out + Filter(re, buf[p..m] + rest)
  {
    hide Filter, Match, Strchr;
    p, out := 0, "";
    ghost var a := buf[..m];
    assert a[0..] == a && buf[0..m] == a;
    var q := FindNewline(buf, p, m);
    while q < m
      invariant p <= q <= m && buf[p..m] == a[p..] && q == p + Strchr(a[p..], '\n')
      invariant q < m ==> a[q] == '\n'
      invariant Filter(re, a + rest) == out + Filter(re, a[p..] + rest)
      decreases m - p
    {
      LineStep(re, a, p, q, rest);
      var printed := DoLine(re, buf, p, q, m, a);
      Associate(out, printed, Filter(re, a[q + 1..] + rest));
      out := out + printed;
      p := q + 1;
      q := FindNewline(buf, p, m);
      assert q < m ==> buf[q] == buf[p..m][q - p] && a[q] == a[p..][q - p];
    }
    assert a[p..] == old(buf[p..m]);
  }

  /** read(): n characters of the stream go into the buffer after its first m. */
  method Fill(buf: array<char>, m: nat, stream: string, pos: nat, n: nat)
    requires m + n < buf.Length && pos + n <= |stream|
    modifies buf
    ensures buf[..m + n] == old(buf[..m]) + stream[pos..pos + n]
  {
    forall i | 0 <= i < n {
      buf[m + i] := stream[pos + i];
    }
    buf[m + n] := NUL;
  }

  /** memmove(): the characters from p to m go to the front. */
  method Shift(buf: array<char>, p: nat, m: nat)
    requires p <= m <= buf.Length
    modifies buf
    ensures buf[..m - p] == old(buf[p..m])
  {
    forall i | 0 <= i < m - p {
      buf[i] := buf[p + i];
    }
  }

  /** One read() and the lines it completes. */
  method ReadLines(re: string, buf: array<char>, m: nat, stream: string, pos: nat, n: nat) returns (left: nat,
                                                                                                    out: string)
    requires m + n < BUFSIZE == buf.Length && pos + n <= |stream|
    modifies buf
    ensures left < BUFSIZE && Strchr(buf[..left], '\n') == left
    ensures Filter(re, old(buf[..m]) + stream[pos..]) == out + Filter(re, buf[..left] + stream[pos + n..])
  {
    hide *;
    ReadMore(buf[..m], stream, pos, n);
    Fill(buf, m, stream, pos, n);
    var p, printed := Lines(re, buf, m + n, stream[pos + n..]);
    Shift(buf, p, m + n);
    left, out := m + n - p, printed;
  }

  /** grep(): however read() splits the stream, what is written is the same. */
  method GrepStream(re: string, stream: string) returns (out: string)
    ensures out == Filter(re, stream)
  {
    hide Filter, Strchr;
    out := "";
    var buf := new char[BUFSIZE](_ => NUL);
    var m, pos := 0, 0;
    assert buf[..0] + stream[0..] == stream;
    NoLine();
    while true
      invariant 0 <= m < BUFSIZE && 0 <= pos <= |stream| && Strchr(buf[..m], '\n') == m
      invariant out + Filter(re, buf[..m] + stream[pos..]) == Filter(re, stream)
      decreases |stream| - pos
    {
      var room := BUFSIZE - m - 1;
      if room == 0 || pos == |stream| {
        FilterStuck(re, buf[..m], stream[pos..]);
        break;
      }
      // read() gives at least one byte and at most what there is and what it was asked for.
      var n: nat :| 1 <= n <= room && pos + n <= |stream|;
      var left, printed := ReadLines(re, buf, m, stream, pos, n);
      Associate(out, printed, Filter(re, buf[..left] + stream[pos + n..]));
      out, m, pos := out + printed, left, pos + n;
    }
  }

  lemma NoLine()
    ensures Strchr("", '\n') == 0
  {}

  lemma ReadMore(had: string, stream: string, pos: nat, n: nat)
    requires pos + n <= |stream|
    ensures had + stream[pos..pos + n] + stream[pos + n..] == had + stream[pos..]
  {}

  lemma Associate(a: string, b: string, c: string)
    ensures a + b + c == a + (b + c)
  {}

  // ---- When every matching line is printed ----

  // Where s has its first newline, or |s|.
  function Newline(s: string): (i: nat)
    ensures i <= |s| && '\n' !in s[..i] && (i < |s| ==> s[i] == '\n')
  {
    if s == "" || s[0] == '\n' then 0
    else
      assert s[..1 + Newline(s[1..])] == [s[0]] + s[1..][..Newline(s[1..])];
      1 + Newline(s[1..])
  }

  /** The lines of s that match, whatever they hold, however long they are, and with or without a final newline. */
  function AllMatching(re: string, s: string): string
    decreases |s|
  {
    var i := Newline(s);
    if i == |s| then if s != "" && Match(re, s) then s else ""
    else (if Match(re, s[..i]) then s[..i + 1] else "") + AllMatching(re, s[i + 1..])
  }

  /** Every line of s ends in a newline, fits the buffer with that and a NUL after it, and holds no NUL. */
  predicate LinesFit(s: string)
    decreases |s|
  {
    var i := Newline(s);
    if i == |s| then s == "" else i + 1 < BUFSIZE && NUL !in s[..i] && LinesFit(s[i + 1..])
  }

  lemma {:induction false} StrchrNewline(s: string)
    ensures var i := Newline(s);
            Strchr(s, '\n') == if i < |s| && NUL !in s[..i] then i else |s|
    decreases |s|
  {
    if s != "" && s[0] != '\n' {
      StrchrNewline(s[1..]);
      var i := Newline(s);
      assert s[..i] == [s[0]] + s[1..][..i - 1];
    }
  }

  // What is printed of a line that ends at i.
  function Printed(re: string, s: string, i: nat): string
    requires i < |s|
  {
    if Match(re, s[..i]) then s[..i + 1] else ""
  }

  lemma FilterFirst(re: string, s: string, i: nat)
    requires Strchr(s, '\n') == i < |s| && i + 1 < BUFSIZE
    ensures Filter(re, s) == Printed(re, s, i) + Filter(re, s[i + 1..])
  {
    hide Match, Strchr;
  }

  lemma AllFirst(re: string, s: string, i: nat)
    requires Newline(s) == i < |s|
    ensures AllMatching(re, s) == Printed(re, s, i) + AllMatching(re, s[i + 1..])
  {
    hide Match, Newline;
  }

  // One line of each, where the line fits.
  lemma FirstLine(re: string, s: string)
    requires Newline(s) < |s| && Newline(s) + 1 < BUFSIZE && NUL !in s[..Newline(s)]
    ensures var i := Newline(s);
            && Filter(re, s) == Printed(re, s, i) + Filter(re, s[i + 1..])
            && AllMatching(re, s) == Printed(re, s, i) + AllMatching(re, s[i + 1..])
  {
    hide Match, Strchr, Filter, AllMatching, Printed;
    StrchrNewline(s);
    FilterFirst(re, s, Newline(s));
    AllFirst(re, s, Newline(s));
  }

  lemma {:induction false} FitAllPrinted(re: string, s: string)
    requires LinesFit(s)
    ensures Filter(re, s) == AllMatching(re, s)
    decreases |s|
  {
    hide Match, Filter, AllMatching;
    var i := Newline(s);
    if i < |s| {
      FirstLine(re, s);
      FitAllPrinted(re, s[i + 1..]);
    } else {
      TailDropped(re, s);
      NoLineAtAll(re);
    }
  }

  /** What follows the last newline is never printed. */
  lemma TailDropped(re: string, s: string)
    requires Newline(s) == |s|
    ensures Filter(re, s) == ""
  {
    hide Match, Strchr;
    StrchrNewline(s);
  }

  lemma NoLineAtAll(re: string)
    ensures AllMatching(re, "") == ""
  {}

  lemma EmptyPattern(text: string)
    ensures Match("", text)
  {
    assert Here("", text[0..]);
  }

  lemma EmptyPrints(s: string, i: nat)
    requires i < |s|
    ensures Printed("", s, i) == s[..i + 1]
  {
    hide Match;
    EmptyPattern(s[..i]);
  }

  lemma TailMatches(s: string)
    requires Newline(s) == |s|
    ensures AllMatching("", s) == s
  {
    hide Match, Newline;
    EmptyPattern(s);
  }

  /** A line that does not fit, or holds a NUL, ends the output. */
  lemma UnfitStops(re: string, s: string)
    requires var i := Newline(s); i < |s| && (i + 1 >= BUFSIZE || NUL in s[..i])
    ensures Filter(re, s) == ""
  {
    hide Match, Strchr;
    StrchrNewline(s);
  }

  /** With the empty pattern, which every line matches, a line that does not fit or does not end is missing. */
  lemma {:induction false} UnfitLost(s: string)
    requires !LinesFit(s)
    ensures |Filter("", s)| < |AllMatching("", s)|
    decreases |s|
  {
    hide Match, Strchr, Filter, AllMatching, Printed;
    var i := Newline(s);
    if i == |s| {
      TailDropped("", s);
      TailMatches(s);
    } else if i + 1 < BUFSIZE && NUL !in s[..i] {
      FirstLine("", s);
      UnfitLost(s[i + 1..]);
    } else {
      UnfitStops("", s);
      AllFirst("", s, i);
      EmptyPrints(s, i);
    }
  }

  /** Every pattern prints all its lines exactly when every line ends, fits the buffer and holds no NUL. */
  lemma PrintsAllIffLinesFit(s: string)
    ensures LinesFit(s) <==> forall re :: Filter(re, s) == AllMatching(re, s)
  {
    hide *;
    if LinesFit(s) {
      forall re ensures Filter(re, s) == AllMatching(re, s) {
        FitAllPrinted(re, s);
      }
    } else {
      UnfitLost(s);
    }
  }

  /** A line of 1023 characters is not printed, though it matches. */
  lemma LongLineLost(s: string)
    requires |s| == BUFSIZE && s[BUFSIZE - 1] == '\n' && forall k :: 0 <= k < BUFSIZE - 1 ==> s[k] != '\n'
    ensures Filter("", s) == "" && AllMatching("", s) == s
  {
    hide Match;
    StrchrNewline(s);
    var i := Newline(s);
    assert i == BUFSIZE - 1;
    EmptyPattern(s[..i]);
    assert s[i + 1..] == "" && s[..i + 1] == s;
  }

  /** The last line of a file that does not end in a newline is not printed, though it matches. */
  lemma LastLineLost(s: string)
    requires s != "" && forall k :: 0 <= k < |s| ==> s[k] != '\n'
    ensures Filter("", s) == "" && AllMatching("", s) == s
  {
    hide Match;
    var i := Newline(s);
    assert i == |s|;
    TailDropped("", s);
    EmptyPattern(s);
  }
}
