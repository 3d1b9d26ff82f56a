/**
 * The string operations the archive relies on: decimal ids, trimming, and slash-separated paths.
 * `Clean` and `Join` follow the rules of Go's `path` package.
 */
module Strings {

  // ----- decimal numerals -----

  function Digit(d: nat): char
    requires d < 10
  {
    '0' + d as char
  }

  predicate IsDecimal(s: string) {
    |s| > 0 && forall c | c in s :: '0' <= c <= '9'
  }

  /** The decimal numeral of a natural number, without leading zeros. */
  function Itoa(n: nat): (s: string)
    ensures IsDecimal(s)
  {
    if n < 10 then [Digit(n)] else Itoa(n / 10) + [Digit(n % 10)]
  }

  function DigitValue(c: char): nat {
    if '0' <= c <= '9' then (c - '0') as nat else 0
  }

  /** The number a string of digits denotes. */
  function DecimalValue(s: string): nat {
    if s == "" then 0 else 10 * DecimalValue(s[..|s| - 1]) + DigitValue(s[|s| - 1])
  }

  lemma {:induction false} ItoaRoundTrip(n: nat)
    ensures DecimalValue(Itoa(n)) == n
  {
    if n >= 10 {
      var s := Itoa(n);
      assert s[..|s| - 1] == Itoa(n / 10);
      ItoaRoundTrip(n / 10);
    } else {
      assert Itoa(n)[..0] == "";
    }
  }

  lemma ItoaInjective(m: nat, n: nat)
    requires Itoa(m) == Itoa(n)
    ensures m == n
  {
    ItoaRoundTrip(m);
    ItoaRoundTrip(n);
  }

  // ----- prefixes and trimming -----

  predicate HasPrefix(s: string, prefix: string) {
    prefix <= s
  }

  /** The white space that Go's strings.TrimSpace removes. */
  predicate IsSpace(c: char) {
    '\t' <= c <= '\r' || c == ' ' || c == '\U{85}' || c == '\U{A0}' || c == '\U{1680}' ||
    '\U{2000}' <= c <= '\U{200A}' || c == '\U{2028}' || c == '\U{2029}' || c == '\U{202F}' ||
    c == '\U{205F}' || c == '\U{3000}'
  }

  /** The white space of Unicode, character by character. */
  const WHITE_SPACE: set<char> := {
    '\t', '\n', '\U{0B}', '\U{0C}', '\r', ' ', '\U{85}', '\U{A0}', '\U{1680}', '\U{2000}', '\U{2001}', '\U{2002}',
    '\U{2003}', '\U{2004}', '\U{2005}', '\U{2006}', '\U{2007}', '\U{2008}', '\U{2009}', '\U{200A}', '\U{2028}',
    '\U{2029}', '\U{202F}', '\U{205F}', '\U{3000}'
  }

  lemma SpacesAreWhite(c: char)
    ensures IsSpace(c) <==> c in WHITE_SPACE
  {
  }

  function TrimLeft(s: string): (t: string)
    ensures |t| <= |s| && t == s[|s| - |t|..]
    ensures t != "" ==> !IsSpace(t[0])
  {
    if s != "" && IsSpace(s[0]) then TrimLeft(s[1..]) else s
  }

  function TrimRight(s: string): (t: string)
    ensures |t| <= |s| && t == s[..|t|]
    ensures t != "" ==> !IsSpace(t[|t| - 1])
  {
    if s != "" && IsSpace(s[|s| - 1]) then TrimRight(s[..|s| - 1]) else s
  }

  function TrimSpace(s: string): string {
    TrimRight(TrimLeft(s))
  }

  predicate AllSpace(s: string) {
    forall c :: c in s ==> IsSpace(c)
  }

  lemma {:induction false} TrimLeftDropsSpace(s: string)
    ensures AllSpace(s[..|s| - |TrimLeft(s)|])
  {
    if s != "" && IsSpace(s[0]) {
      TrimLeftDropsSpace(s[1..]);
      var n := |s| - |TrimLeft(s)|;
      assert s[..n] == [s[0]] + s[1..][..n - 1];
    }
  }

  lemma {:induction false} TrimRightDropsSpace(s: string)
    ensures AllSpace(s[|TrimRight(s)|..])
  {
    if s != "" && IsSpace(s[|s| - 1]) {
      TrimRightDropsSpace(s[..|s| - 1]);
      var n := |TrimRight(s)|;
      assert s[n..] == s[..|s| - 1][n..] + [s[|s| - 1]];
    }
  }

  lemma TrimLeftSplits(s: string)
    ensures |TrimLeft(s)| <= |s| && s == s[..|s| - |TrimLeft(s)|] + TrimLeft(s)
  {
  }

  lemma TrimRightSplits(s: string)
    ensures |TrimRight(s)| <= |s| && s == TrimRight(s) + s[|TrimRight(s)|..]
  {
  }

  lemma EndsOfTrimmed(s: string)
    ensures TrimSpace(s) != "" ==> !IsSpace(TrimSpace(s)[0]) && !IsSpace(TrimSpace(s)[|TrimSpace(s)| - 1])
  {
    hide IsSpace;
    var t, u := TrimLeft(s), TrimRight(TrimLeft(s));
    assert u != "" ==> u[0] == t[0];
  }

  /** Trimming takes white space, and nothing else, from both ends, and leaves none there. */
  lemma TrimSpaceTrims(s: string) returns (left: string, right: string)
    ensures s == left + TrimSpace(s) + right && AllSpace(left) && AllSpace(right)
    ensures TrimSpace(s) != "" ==> !IsSpace(TrimSpace(s)[0]) && !IsSpace(TrimSpace(s)[|TrimSpace(s)| - 1])
  {
    hide IsSpace, AllSpace, TrimLeft, TrimRight;
    var t := TrimLeft(s);
    TrimLeftSplits(s);
    TrimRightSplits(t);
    TrimLeftDropsSpace(s);
    TrimRightDropsSpace(t);
    EndsOfTrimmed(s);
    left, right := s[..|s| - |t|], t[|TrimRight(t)|..];
    assert s == left + (TrimSpace(s) + right);
  }

  /** A string with no white space at either end is left alone. */
  lemma TrimSpaceKeeps(s: string)
    requires s != "" ==> !IsSpace(s[0]) && !IsSpace(s[|s| - 1])
    ensures TrimSpace(s) == s
  {
  }

  // ----- slash-separated paths -----

  predicate NoSlash(s: string) {
    '/' !in s
  }

  predicate IsName(s: string) {
    s != "" && s != "." && s != ".." && NoSlash(s)
  }

  function Split(s: string): (segments: seq<string>)
    ensures |segments| > 0
  {
    if s == "" then [""]
    else
      var rest := Split(s[1..]);
      if s[0] == '/' then [""] + rest else [[s[0]] + rest[0]] + rest[1..]
  }

  function Glue(segments: seq<string>): string {
    if |segments| == 0 then ""
    else if |segments| == 1 then segments[0]
    else segments[0] + "/" + Glue(segments[1..])
  }

  lemma {:induction false} SplitNoSlash(s: string)
    requires NoSlash(s)
    ensures Split(s) == [s]
  {
    if s != "" {
      SplitNoSlash(s[1..]);
      assert s == [s[0]] + s[1..];
    }
  }

  lemma {:induction false} SplitFirst(s: string, rest: string)
    requires NoSlash(s)
    ensures Split(s + "/" + rest) == [s] + Split(rest)
  {
    var whole := s + "/" + rest;
    if s == "" {
      assert whole[1..] == rest;
    } else {
      assert whole[1..] == s[1..] + "/" + rest;
      SplitFirst(s[1..], rest);
      assert s == [s[0]] + s[1..];
      assert ([s[1..]] + Split(rest))[1..] == Split(rest);
    }
  }

  /** Splitting undoes gluing whenever no segment holds a slash. */
  lemma {:induction false} SplitGlue(segments: seq<string>)
    requires |segments| > 0
    requires forall s | s in segments :: NoSlash(s)
    ensures Split(Glue(segments)) == segments
  {
    if |segments| == 1 {
      SplitNoSlash(segments[0]);
    } else {
      SplitFirst(segments[0], Glue(segments[1..]));
      SplitGlue(segments[1..]);
    }
  }

  function PushSegment(done: seq<string>, s: string, rooted: bool): seq<string> {
    if s == "" || s == "." then done
    else if s != ".." then done + [s]
    else if |done| > 0 && done[|done| - 1] != ".." then done[..|done| - 1]
    else if rooted then done
    else done + [s]
  }

  /** Walks the segments left to right, dropping empty and "." segments and cancelling "..". */
  function Resolve(segments: seq<string>, rooted: bool, done: seq<string>): seq<string>
    decreases |segments|
  {
    if |segments| == 0 then done
    else Resolve(segments[1..], rooted, PushSegment(done, segments[0], rooted))
  }

  /** path.Clean */
  function Clean(s: string): string {
    var rooted := s != "" && s[0] == '/';
    var body := Glue(Resolve(Split(s), rooted, []));
    if rooted then "/" + body else if body == "" then "." else body
  }

  function JoinRaw(parts: seq<string>, buffer: string): string
    decreases |parts|
  {
    if |parts| == 0 then buffer
    else
      JoinRaw(parts[1..], if buffer != "" then buffer + "/" + parts[0] else parts[0])
  }

  /** path.Join */
  function Join(parts: seq<string>): string {
    var raw := JoinRaw(parts, "");
    if raw == "" then "" else Clean(raw)
  }

  function DropEmpty(segments: seq<string>): seq<string> {
    if |segments| == 0 then []
    else (if segments[0] == "" then [] else [segments[0]]) + DropEmpty(segments[1..])
  }

  lemma {:induction false} ResolveNames(segments: seq<string>, rooted: bool, done: seq<string>)
    requires forall s | s in segments :: s == "" || IsName(s)
    ensures Resolve(segments, rooted, done) == done + DropEmpty(segments)
    decreases |segments|
  {
    if |segments| > 0 {
      var s := segments[0];
      var done' := if s == "" then done else done + [s];
      ResolveNames(segments[1..], rooted, done');
      assert s in segments;
      assert PushSegment(done, s, rooted) == done';
      assert done' + DropEmpty(segments[1..]) == done + DropEmpty(segments);
    } else {
      assert done + DropEmpty(segments) == done;
    }
  }

  lemma GlueStartsWithFirst(segments: seq<string>)
    requires |segments| > 0
    ensures segments[0] <= Glue(segments)
  {
  }

  /** Cleaning a relative path made of plain names only squeezes out the empty segments. */
  lemma CleanNames(segments: seq<string>)
    requires |segments| > 0 && IsName(segments[0])
    requires forall s | s in segments :: s == "" || IsName(s)
    ensures Clean(Glue(segments)) == Glue(DropEmpty(segments))
  {
    var s := Glue(segments);
    GlueStartsWithFirst(segments);
    assert s[0] == segments[0][0] != '/';
    assert Split(s) == segments by { SplitGlue(segments); }
    var kept := DropEmpty(segments);
    assert Resolve(segments, false, []) == kept by {
      ResolveNames(segments, false, []);
      assert [] + kept == kept;
    }
    assert kept[0] == segments[0];
    GlueStartsWithFirst(kept);
  }

  lemma {:induction false} DropEmptyKeepsNames(segments: seq<string>)
    requires "" !in segments
    ensures DropEmpty(segments) == segments
  {
    if |segments| > 0 {
      DropEmptyKeepsNames(segments[1..]);
    }
  }

  lemma {:induction false} DropEmptyMiddle(front: seq<string>, back: seq<string>)
    requires "" !in front && "" !in back
    ensures DropEmpty(front + [""] + back) == front + back
  {
    var all := front + [""] + back;
    if |front| > 0 {
      DropEmptyMiddle(front[1..], back);
      assert all[1..] == front[1..] + [""] + back;
    } else {
      assert all[1..] == back;
      DropEmptyKeepsNames(back);
    }
  }

  lemma Glue2(a: string, b: string)
    ensures Glue([a, b]) == a + "/" + b
  {
    assert [a, b][1..] == [b];
  }

  lemma Glue3(a: string, b: string, c: string)
    ensures Glue([a, b, c]) == a + "/" + b + "/" + c
  {
    assert [a, b, c][1..] == [b, c];
    Glue2(b, c);
    assert a + "/" + (b + "/" + c) == a + "/" + b + "/" + c;
  }

  lemma Glue4(a: string, b: string, c: string, d: string)
    ensures Glue([a, b, c, d]) == a + "/" + b + "/" + c + "/" + d
  {
    assert [a, b, c, d][1..] == [b, c, d];
    Glue3(b, c, d);
    assert a + "/" + (b + "/" + c + "/" + d) == a + "/" + b + "/" + c + "/" + d;
  }

  lemma Glue5(a: string, b: string, c: string, d: string, e: string)
    ensures Glue([a, b, c, d, e]) == a + "/" + b + "/" + c + "/" + d + "/" + e
  {
    assert [a, b, c, d, e][1..] == [b, c, d, e];
    Glue4(b, c, d, e);
    assert a + "/" + (b + "/" + c + "/" + d + "/" + e) == a + "/" + b + "/" + c + "/" + d + "/" + e;
  }

  lemma Join2(a: string, b: string)
    requires a != ""
    ensures Join([a, b]) == Clean(a + "/" + b)
  {
    assert [a, b][1..] == [b] && [b][1..] == [];
    assert JoinRaw([a, b], "") == JoinRaw([b], a) == a + "/" + b;
  }

  lemma Join3(a: string, b: string, c: string)
    requires a != ""
    ensures Join([a, b, c]) == Clean(a + "/" + b + "/" + c)
  {
    assert [a, b, c][1..] == [b, c] && [b, c][1..] == [c] && [c][1..] == [];
    assert JoinRaw([a, b, c], "") == JoinRaw([b, c], a) == JoinRaw([c], a + "/" + b) == a + "/" + b + "/" + c;
  }

  /** Joining two names puts one slash between them. */
  lemma JoinNames(a: string, b: string)
    requires IsName(a) && IsName(b)
    ensures Join([a, b]) == a + "/" + b
  {
    Join2(a, b);
    Glue2(a, b);
    CleanNames([a, b]);
    DropEmptyKeepsNames([a, b]);
  }

  /** Joining a file to a two-name directory written with its final slash. */
  lemma JoinFile(a: string, b: string, file: string)
    requires IsName(a) && IsName(b) && IsName(file)
    ensures Join([a + "/" + b + "/", file]) == Glue([a, b, file])
  {
    hide Clean, Glue, Join, DropEmpty;
    var dir := a + "/" + b + "/";
    Join2(dir, file);
    Glue4(a, b, "", file);
    assert dir + "/" + file == a + "/" + b + "/" + "" + "/" + file;
    CleanNames([a, b, "", file]);
    assert [a, b, "", file] == [a, b] + [""] + [file] && [a, b] + [file] == [a, b, file];
    DropEmptyMiddle([a, b], [file]);
  }

  /** The same with one directory in between. */
  lemma JoinNested(a: string, b: string, c: string, file: string)
    requires IsName(a) && IsName(b) && IsName(c) && IsName(file)
    ensures Join([a + "/" + b + "/", c, file]) == Glue([a, b, c, file])
  {
    hide Clean, Glue, Join, DropEmpty;
    var dir := a + "/" + b + "/";
    Join3(dir, c, file);
    Glue5(a, b, "", c, file);
    assert dir + "/" + c + "/" + file == a + "/" + b + "/" + "" + "/" + c + "/" + file;
    CleanNames([a, b, "", c, file]);
    DropEmptyMiddle([a, b], [c, file]);
    assert [a, b, "", c, file] == [a, b] + [""] + [c, file] && [a, b] + [c, file] == [a, b, c, file];
  }

  lemma SplitGlue3(a: string, b: string, c: string)
    requires NoSlash(a) && NoSlash(b) && NoSlash(c)
    ensures Split(Glue([a, b, c])) == [a, b, c]
  {
    SplitGlue([a, b, c]);
  }

  lemma SplitGlue4(a: string, b: string, c: string, d: string)
    requires NoSlash(a) && NoSlash(b) && NoSlash(c) && NoSlash(d)
    ensures Split(Glue([a, b, c, d])) == [a, b, c, d]
  {
    SplitGlue([a, b, c, d]);
  }

  /** Splitting what follows a two-name directory. */
  lemma SplitBelow(a: string, b: string, rest: string)
    requires NoSlash(a) && NoSlash(b)
    ensures Split(a + "/" + b + "/" + rest) == [a, b] + Split(rest)
  {
    hide Split, NoSlash;
    SplitFirst(b, rest);
    SplitFirst(a, b + "/" + rest);
    assert a + "/" + b + "/" + rest == a + "/" + (b + "/" + rest);
    assert [a] + ([b] + Split(rest)) == [a, b] + Split(rest);
  }

  /** Two glued names with dotted last parts agree part by part when the last parts hold no dot. */
  lemma LastDotSplits(a: string, ext: string, a': string, ext': string)
    requires a + "." + ext == a' + "." + ext'
    requires '.' !in ext && '.' !in ext'
    ensures a == a' && ext == ext'
  {
    var s, t := a + "." + ext, a' + "." + ext';
    assert s[|a|] == '.' && t[|a'|] == '.';
    assert forall k :: |a| < k < |s| ==> s[k] == ext[k - |a| - 1];
    assert forall k :: |a'| < k < |t| ==> t[k] == ext'[k - |a'| - 1];
    if |a| == |a'| {
      assert a == s[..|a|] && a' == t[..|a'|];
      assert ext == s[|a| + 1..] && ext' == t[|a'| + 1..];
    } else {
      assert false;
    }
  }
}
