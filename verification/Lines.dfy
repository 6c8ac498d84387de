/**
 NDJSON line splitting. The reader drains complete lines out of a growing buffer as
 chunks of decoded text arrive; how the text was cut into chunks must not matter.
 */
module Lines {

  /** What `String.prototype.trim` strips. */
  const WHITESPACE := {' ', '\t', '\n', '\U{000B}', '\U{000C}', '\r', '\U{00A0}', '\U{1680}',
                       '\U{2000}', '\U{2001}', '\U{2002}', '\U{2003}', '\U{2004}', '\U{2005}', '\U{2006}',
                       '\U{2007}', '\U{2008}', '\U{2009}', '\U{200A}', '\U{2028}', '\U{2029}', '\U{202F}',
                       '\U{205F}', '\U{3000}', '\U{FEFF}'}

  predicate IsBlank(s: string) {
    forall i :: 0 <= i < |s| ==> s[i] in WHITESPACE
  }

  /** `indexOf('\n', i)`, or the length when there is none. */
  function NewlineFrom(s: string, i: nat): (n: nat)
    requires i <= |s|
    ensures i <= n <= |s|
    ensures n < |s| ==> s[n] == '\n'
    ensures forall k :: i <= k < n ==> s[k] != '\n'
    decreases |s| - i
  {
    if i == |s| || s[i] == '\n' then i else NewlineFrom(s, i + 1)
  }

  function NewlineAt(s: string): (n: nat)
    ensures n <= |s|
    ensures n < |s| ==> s[n] == '\n'
    ensures forall k :: 0 <= k < n ==> s[k] != '\n'
  {
    NewlineFrom(s, 0)
  }

  /** The non-empty lines of `text` that a newline ends. */
  function Complete(text: string): seq<string>
    decreases |text|
  {
    var n := NewlineAt(text);
    if n == |text| then [] else (if n == 0 then [] else [text[..n]]) + Complete(text[n + 1..])
  }

  /** What follows the last newline. */
  function Rest(text: string): string
    decreases |text|
  {
    var n := NewlineAt(text);
    if n == |text| then text else Rest(text[n + 1..])
  }

  /** Every line a reader of `text` is to yield. */
  function AllLines(text: string): seq<string> {
    Complete(text) + if IsBlank(Rest(text)) then [] else [Rest(text)]
  }

  function Concat(chunks: seq<string>): string
    decreases |chunks|
  {
    if chunks == [] then "" else Concat(chunks[..|chunks| - 1]) + chunks[|chunks| - 1]
  }

  lemma NewlineUnique(s: string, n: nat)
    requires n < |s| && s[n] == '\n' && forall i :: 0 <= i < n ==> s[i] != '\n'
    ensures NewlineAt(s) == n
  {
  }

  /** Cutting `text` at its first newline. */
  lemma FirstLine(line: string, tail: string)
    requires '\n' !in line
    ensures Complete(line + "\n" + tail) == (if line == "" then [] else [line]) + Complete(tail)
    ensures Rest(line + "\n" + tail) == Rest(tail)
  {
    var t, n := line + "\n" + tail, |line|;
    assert forall i :: 0 <= i < n ==> t[i] == line[i];
    NewlineUnique(t, n);
    assert t[..n] == line && t[n + 1..] == tail;
  }

  /** Draining in two steps is draining once. */
  lemma {:induction false} DrainSplits(a: string, b: string)
    ensures Complete(a + b) == Complete(a) + Complete(Rest(a) + b)
    ensures Rest(a + b) == Rest(Rest(a) + b)
    decreases |a|
  {
    var n := NewlineAt(a);
    if n < |a| {
      var line, tail := a[..n], a[n + 1..];
      assert a == line + "\n" + tail;
      assert a + b == line + "\n" + (tail + b);
      FirstLine(line, tail);
      FirstLine(line, tail + b);
      DrainSplits(tail, b);
    }
  }

  lemma Unroll(text: string)
    requires NewlineAt(text) < |text|
    ensures var n := NewlineAt(text);
            && Complete(text) == (if text[..n] == "" then [] else [text[..n]]) + Complete(text[n + 1..])
            && Rest(text) == Rest(text[n + 1..])
  {
  }

  lemma Append(lines: seq<string>, line: string, more: seq<string>)
    ensures lines + ((if line == "" then [] else [line]) + more) == (if line == "" then lines else lines + [line]) + more
  {
  }

  method DrainLineBuffer(buf: string) returns (lines: seq<string>, rest: string)
    ensures lines == Complete(buf) && rest == Rest(buf)
  {
    lines, rest := [], buf;
    var nl := NewlineAt(rest);
    while nl < |rest|
      invariant nl == NewlineAt(rest)
      invariant lines + Complete(rest) == Complete(buf)
      invariant Rest(rest) == Rest(buf)
      decreases |rest|
    {
      var line := rest[..nl];
      ghost var before := rest;
      rest := rest[nl + 1..];
      Unroll(before);
      Append(lines, line, Complete(rest));
      if line != "" { lines := lines + [line]; }
      nl := NewlineAt(rest);
    }
  }

  method LinesFromText(text: string) returns (yielded: seq<string>)
    ensures yielded == AllLines(text)
  {
    var lines, rest := DrainLineBuffer(text);
    yielded := lines;
    if !IsBlank(rest) { yielded := yielded + [rest]; }
  }

  method LinesFromStream(chunks: seq<string>) returns (yielded: seq<string>)
    ensures yielded == AllLines(Concat(chunks))
  {
    yielded := [];
    var buf := "";
    for i := 0 to |chunks|
      invariant yielded == Complete(Concat(chunks[..i]))
      invariant buf == Rest(Concat(chunks[..i]))
    {
      DrainSplits(Concat(chunks[..i]), chunks[i]);
      assert chunks[..i + 1][..i] == chunks[..i];
      buf := buf + chunks[i];
      var lines, rest := DrainLineBuffer(buf);
      yielded := yielded + lines;
      buf := rest;
    }
    assert chunks[..|chunks|] == chunks;
    if !IsBlank(buf) { yielded := yielded + [buf]; }
  }

  /** A writer's text: every line followed by a newline. */
  function Written(lines: seq<string>): string
    decreases |lines|
  {
    if lines == [] then "" else lines[0] + "\n" + Written(lines[1..])
  }

  /** Reading back what was written, for lines that are non-empty and hold no newline. */
  lemma {:induction false} ReadBack(lines: seq<string>)
    requires forall i :: 0 <= i < |lines| ==> lines[i] != "" && '\n' !in lines[i]
    ensures AllLines(Written(lines)) == lines
    ensures Rest(Written(lines)) == ""
    decreases |lines|
  {
    if lines != [] {
      FirstLine(lines[0], Written(lines[1..]));
      ReadBack(lines[1..]);
      assert [lines[0]] + lines[1..] == lines;
    }
  }

  /** Lines of a text whose last line no newline ends. */
  lemma {:induction false} ReadBackUnended(lines: seq<string>, last: string)
    requires (forall i :: 0 <= i < |lines| ==> lines[i] != "" && '\n' !in lines[i]) && '\n' !in last
    ensures Complete(Written(lines) + last) == lines && Rest(Written(lines) + last) == last
    decreases |lines|
  {
    if lines == [] {
      assert Written(lines) + last == last;
    } else {
      assert Written(lines) + last == lines[0] + "\n" + (Written(lines[1..]) + last);
      FirstLine(lines[0], Written(lines[1..]) + last);
      ReadBackUnended(lines[1..], last);
      assert [lines[0]] + lines[1..] == lines;
    }
  }

  lemma BraceIsNotBlank(s: string)
    requires s != "" && s[0] == '{'
    ensures !IsBlank(s)
  {
  }

  lemma SpacesAreBlank(s: string)
    requires forall i :: 0 <= i < |s| ==> s[i] == ' ' || s[i] == '\t' || s[i] == '\r'
    ensures IsBlank(s)
  {
  }

  /** The last line counts without its newline too, be it a JSON object; spaces alone do not. */
  lemma LastLineCounts(lines: seq<string>, last: string)
    requires (forall i :: 0 <= i < |lines| ==> lines[i] != "" && '\n' !in lines[i]) && '\n' !in last
    ensures last != "" && last[0] == '{' ==> AllLines(Written(lines) + last) == lines + [last]
    ensures (forall i :: 0 <= i < |last| ==> last[i] == ' ' || last[i] == '\t' || last[i] == '\r') ==>
              AllLines(Written(lines) + last) == lines
  {
    ReadBackUnended(lines, last);
    if last != "" && last[0] == '{' {
      BraceIsNotBlank(last);
    } else if forall i :: 0 <= i < |last| ==> last[i] == ' ' || last[i] == '\t' || last[i] == '\r' {
      SpacesAreBlank(last);
    }
  }
}
