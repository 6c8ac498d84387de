/**
 Masking secret query values in text that need not be a URL: one forward scan, specified
 by what it recognises as a name and value pair.
 */
module Redact {

  const SENSITIVE_PARAMS := {
    "apikey", "apitoken", "apisecret", "accesstoken", "accesskey", "refreshtoken", "idtoken",
    "authtoken", "authkey", "sessiontoken", "bearer", "token", "auth", "authorization",
    "credential", "credentials", "secret", "secretkey", "privatekey", "clientsecret",
    "password", "passwd", "passphrase", "pwd", "sessionid", "session", "signature", "sig", "key"}

  const REDACTED := "REDACTED"

  const DELIMITERS := {'&', ' ', '\t', '\n', '\r', '\U{000C}', '\U{000B}'}

  // ------------------------------------------------------------ names

  /**
   Lower case, as far as it can produce a to z: only A to Z and the Kelvin sign do. Every
   other character's lower case leaves a character that no listed name has, as it does itself.
   */
  function Lower(c: char): char {
    if 'A' <= c <= 'Z' then (c as int + 32) as char else if c == '\U{212A}' then 'k' else c
  }

  /** Lower case, without hyphens and underscores. */
  function Normalised(name: string): string {
    if name == "" then "" else
      (if name[0] == '-' || name[0] == '_' then [] else [Lower(name[0])]) + Normalised(name[1..])
  }

  predicate IsSensitive(name: string) {
    Normalised(name) in SENSITIVE_PARAMS
  }

  lemma {:induction false} NormalisedJoins(a: string, b: string)
    ensures Normalised(a + b) == Normalised(a) + Normalised(b)
    decreases |a|
  {
    if a == "" {
      assert a + b == b;
    } else {
      assert (a + b)[1..] == a[1..] + b;
      NormalisedJoins(a[1..], b);
    }
  }

  lemma SeparatorsVanish(a: string, b: string, c: char)
    ensures c == '-' || c == '_' ==> Normalised(a + [c] + b) == Normalised(a + b)
    ensures Normalised(a + [c] + b) == Normalised(a + [Lower(c)] + b)
  {
    NormalisedJoins(a, b);
    forall x: char ensures Normalised(a + [x] + b) == Normalised(a) + Normalised([x]) + Normalised(b) {
      NormalisedJoins(a + [x], b);
      NormalisedJoins(a, [x]);
    }
    assert Normalised([c]) == Normalised([Lower(c)]);
    assert c == '-' || c == '_' ==> Normalised([c]) == [];
  }

  /** Case and separators never decide. */
  lemma SpellingsAgree(a: string, b: string, c: char)
    ensures c == '-' || c == '_' ==> (IsSensitive(a + [c] + b) <==> IsSensitive(a + b))
    ensures 'A' <= c <= 'Z' ==> (IsSensitive(a + [c] + b) <==> IsSensitive(a + [c - 'A' + 'a'] + b))
    ensures IsSensitive(a + ['\U{212A}'] + b) <==> IsSensitive(a + ['k'] + b)
  {
    SeparatorsVanish(a, b, c);
    SeparatorsVanish(a, b, '\U{212A}');
    assert 'A' <= c <= 'Z' ==> c - 'A' + 'a' == Lower(c);
  }

  // ------------------------------------------------------------ what the scan recognises

  /** A character that stands for itself, or a name and value after a `?` or `&`. */
  datatype Piece = Plain(c: char) | Pair(name: string, value: string)

  predicate EndsName(c: char) { c == '=' || c in DELIMITERS }

  function NameLength(s: string): (n: nat)
    ensures n <= |s|
    ensures n < |s| ==> EndsName(s[n])
    ensures forall i :: 0 <= i < n ==> !EndsName(s[i])
  {
    if s == "" || EndsName(s[0]) then 0 else NameLength(s[1..]) + 1
  }

  function ValueLength(s: string): (n: nat)
    ensures n <= |s|
    ensures n < |s| ==> s[n] in DELIMITERS
    ensures forall i :: 0 <= i < n ==> s[i] !in DELIMITERS
  {
    if s == "" || s[0] in DELIMITERS then 0 else ValueLength(s[1..]) + 1
  }

  predicate Opens(c: char) { c == '?' || c == '&' }

  /** `rest` starts with a name, an equals sign and a value. */
  predicate StartsPair(rest: string) {
    var n := NameLength(rest);
    0 < n < |rest| && rest[n] == '='
  }

  function ValueOf(rest: string): string
    requires StartsPair(rest)
  {
    var tail := rest[NameLength(rest) + 1..];
    tail[..ValueLength(tail)]
  }

  function AfterPair(rest: string): (after: string)
    requires StartsPair(rest)
    ensures |after| < |rest|
  {
    var tail := rest[NameLength(rest) + 1..];
    tail[ValueLength(tail)..]
  }

  function PairOf(rest: string): Piece
    requires StartsPair(rest)
  {
    Pair(rest[..NameLength(rest)], ValueOf(rest))
  }

  lemma RestSpells(rest: string)
    requires StartsPair(rest)
    ensures rest == TextOf(PairOf(rest)) + AfterPair(rest)
  {
    var n := NameLength(rest);
    var tail := rest[n + 1..];
    assert tail == ValueOf(rest) + AfterPair(rest);
    assert rest == rest[..n] + [rest[n]] + tail;
  }

  function Pieces(s: string): seq<Piece>
    decreases |s|
  {
    if s == "" then []
    else if Opens(s[0]) && StartsPair(s[1..]) then
      [Plain(s[0]), PairOf(s[1..])] + Pieces(AfterPair(s[1..]))
    else [Plain(s[0])] + Pieces(s[1..])
  }

  function TextOf(p: Piece): string {
    match p case Plain(c) => [c] case Pair(name, value) => name + "=" + value
  }

  function Text(pieces: seq<Piece>): string {
    if pieces == [] then "" else TextOf(pieces[0]) + Text(pieces[1..])
  }

  /** Only the value of a secret pair is replaced. */
  function Masked(secret: string -> bool, p: Piece): Piece {
    if p.Pair? && secret(p.name) then Pair(p.name, REDACTED) else p
  }

  function MaskedAll(secret: string -> bool, pieces: seq<Piece>): (masked: seq<Piece>)
    ensures |masked| == |pieces|
    ensures forall i :: 0 <= i < |pieces| ==> masked[i] == Masked(secret, pieces[i])
  {
    if pieces == [] then [] else [Masked(secret, pieces[0])] + MaskedAll(secret, pieces[1..])
  }

  function Redacted(secret: string -> bool, s: string): string {
    Text(MaskedAll(secret, Pieces(s)))
  }

  /** A name and value that end where `after` begins. */
  predicate Shaped(p: Piece, after: string) {
    && p.Pair? && p.name != "" && (forall i :: 0 <= i < |p.name| ==> !EndsName(p.name[i]))
    && (forall i :: 0 <= i < |p.value| ==> p.value[i] !in DELIMITERS)
    && (after != "" ==> after[0] in DELIMITERS)
  }

  lemma SplitPair(s: string) returns (p: Piece, after: string)
    requires s != "" && Opens(s[0]) && StartsPair(s[1..])
    ensures s == [s[0]] + TextOf(p) + after && Shaped(p, after)
    ensures Pieces(s) == [Plain(s[0]), p] + Pieces(after)
  {
    p, after := PairOf(s[1..]), AfterPair(s[1..]);
    RestSpells(s[1..]);
  }

  /** Nothing is lost or invented: the pieces spell the text. */
  lemma {:induction false} PiecesSpellTheText(s: string)
    ensures Text(Pieces(s)) == s
    decreases |s|
  {
    if s != "" {
      if Opens(s[0]) && StartsPair(s[1..]) {
        var p, after := SplitPair(s);
        PiecesSpellTheText(after);
        TwoTexts(Plain(s[0]), p, Pieces(after));
      } else {
        PiecesSpellTheText(s[1..]);
        assert Pieces(s)[1..] == Pieces(s[1..]);
      }
    }
  }

  lemma TwoTexts(a: Piece, b: Piece, more: seq<Piece>)
    ensures Text([a, b] + more) == TextOf(a) + TextOf(b) + Text(more)
  {
    assert ([a, b] + more)[1..] == [b] + more;
    assert ([b] + more)[1..] == more;
  }

  lemma TwoPieces(secret: string -> bool, a: Piece, b: Piece, more: seq<Piece>)
    ensures MaskedAll(secret, [a, b] + more) == [Masked(secret, a), Masked(secret, b)] + MaskedAll(secret, more)
  {
    assert ([a, b] + more)[1..] == [b] + more;
    assert ([b] + more)[1..] == more;
  }

  // ------------------------------------------------------------ the scan

  method NameEnd(raw: string, i: nat) returns (nameEnd: nat)
    requires i <= |raw|
    ensures i <= nameEnd <= |raw| && nameEnd - i == NameLength(raw[i..])
    ensures forall k :: i <= k < nameEnd ==> !EndsName(raw[k])
  {
    nameEnd := i;
    while nameEnd < |raw| && raw[nameEnd] != '=' && raw[nameEnd] !in DELIMITERS
      invariant i <= nameEnd <= |raw|
      invariant forall k :: i <= k < nameEnd ==> !EndsName(raw[k])
    {
      nameEnd := nameEnd + 1;
    }
    NameLengthIs(raw[i..], nameEnd - i);
  }

  method ValueEnd(raw: string, i: nat) returns (valueEnd: nat)
    requires i <= |raw|
    ensures i <= valueEnd <= |raw| && (valueEnd < |raw| ==> raw[valueEnd] in DELIMITERS)
    ensures forall k :: i <= k < valueEnd ==> raw[k] !in DELIMITERS
  {
    valueEnd := i;
    while valueEnd < |raw| && raw[valueEnd] !in DELIMITERS
      invariant i <= valueEnd <= |raw|
      invariant forall k :: i <= k < valueEnd ==> raw[k] !in DELIMITERS
    {
      valueEnd := valueEnd + 1;
    }
  }

  method RedactQuerySecretsInText(raw: string) returns (out: string)
    ensures out == Redacted(IsSensitive, raw)
  {
    out := Scan(IsSensitive, raw);
  }

  /** The scan, for any notion of a secret name. */
  method Scan(secret: string -> bool, raw: string) returns (out: string)
    ensures out == Redacted(secret, raw)
  {
    out := "";
    var i := 0;
    while i < |raw|
      invariant 0 <= i <= |raw|
      invariant Redacted(secret, raw) == out + Redacted(secret, raw[i..])
      decreases |raw| - i
    {
      ghost var before, at := out, i;
      var ch := raw[i];
      out := out + [ch];
      i := i + 1;
      if ch != '?' && ch != '&' {
        PlainStep(secret, raw, at);
        Advance(Redacted(secret, raw), before, [ch], Redacted(secret, raw[i..]));
        continue;
      }
      var nameEnd := NameEnd(raw, i);
      if nameEnd == i || nameEnd == |raw| || raw[nameEnd] != '=' {
        PlainStep(secret, raw, at);
        Advance(Redacted(secret, raw), before, [ch], Redacted(secret, raw[i..]));
        continue;
      }
      var valueEnd := ValueEnd(raw, nameEnd + 1);
      var name := raw[i..nameEnd];
      var pair := if secret(name) then name + "=" + REDACTED else raw[i..valueEnd];
      PairStep(secret, raw, at, nameEnd, valueEnd);
      Advance(Redacted(secret, raw), before, [ch] + pair, Redacted(secret, raw[valueEnd..]));
      Advance(out + pair, before, [ch], pair);
      out := out + pair;
      i := valueEnd;
    }
  }

  lemma Advance(whole: string, a: string, b: string, c: string)
    ensures a + (b + c) == (a + b) + c
  {
  }

  lemma PlainStep(secret: string -> bool, raw: string, i: nat)
    requires i < |raw| && !(Opens(raw[i]) && StartsPair(raw[i + 1..]))
    ensures Redacted(secret, raw[i..]) == [raw[i]] + Redacted(secret, raw[i + 1..])
  {
    assert raw[i..][1..] == raw[i + 1..];
    RedactedStep(secret, raw[i..]);
  }

  lemma PairStep(secret: string -> bool, raw: string, i: nat, nameEnd: nat, valueEnd: nat)
    requires i + 1 < nameEnd < valueEnd <= |raw| && Opens(raw[i]) && raw[nameEnd] == '='
    requires forall k :: i + 1 <= k < nameEnd ==> !EndsName(raw[k])
    requires forall k :: nameEnd + 1 <= k < valueEnd ==> raw[k] !in DELIMITERS
    requires valueEnd < |raw| ==> raw[valueEnd] in DELIMITERS
    ensures Redacted(secret, raw[i..])
         == [raw[i]]
            + (if secret(raw[i + 1..nameEnd]) then raw[i + 1..nameEnd] + "=" + REDACTED else raw[i + 1..valueEnd])
            + Redacted(secret, raw[valueEnd..])
  {
    var p, after := Pair(raw[i + 1..nameEnd], raw[nameEnd + 1..valueEnd]), raw[valueEnd..];
    assert raw[i + 1..valueEnd] == TextOf(p);
    assert raw[i..] == [raw[i]] + TextOf(p) + after;
    RedactedPair(secret, raw[i], p, after);
  }

  lemma NameLengthIs(s: string, n: nat)
    requires n <= |s| && (n < |s| ==> EndsName(s[n])) && forall i :: 0 <= i < n ==> !EndsName(s[i])
    ensures NameLength(s) == n
  {
  }

  /** Redaction goes left to right: over a pair, and over any other character. */
  lemma RedactedPair(secret: string -> bool, c: char, p: Piece, after: string)
    requires Opens(c) && Shaped(p, after)
    ensures Redacted(secret, [c] + TextOf(p) + after) == [c] + TextOf(Masked(secret, p)) + Redacted(secret, after)
  {
    PairFirst(c, p, after);
    TwoPieces(secret, Plain(c), p, Pieces(after));
    TwoTexts(Plain(c), Masked(secret, p), MaskedAll(secret, Pieces(after)));
  }

  lemma RedactedStep(secret: string -> bool, s: string)
    requires s != "" && !(Opens(s[0]) && StartsPair(s[1..]))
    ensures Redacted(secret, s) == [s[0]] + Redacted(secret, s[1..])
  {
    OnePiece(secret, Plain(s[0]), Pieces(s[1..]));
    OnePiece(secret, Plain(s[0]), MaskedAll(secret, Pieces(s[1..])));
  }

  /** A pair and what follows it are found again. */
  lemma PairFoundAgain(name: string, value: string, after: string)
    requires Shaped(Pair(name, value), after)
    ensures var rest := name + "=" + value + after;
            StartsPair(rest) && PairOf(rest) == Pair(name, value) && AfterPair(rest) == after
  {
    var rest := name + "=" + value + after;
    NameLengthIs(rest, |name|);
    assert rest[..|name|] == name;
    assert rest[|name| + 1..] == value + after;
    assert (value + after)[..|value|] == value && (value + after)[|value|..] == after;
  }

  lemma PairFirst(c: char, p: Piece, after: string)
    requires Opens(c) && Shaped(p, after)
    ensures Pieces([c] + TextOf(p) + after) == [Plain(c), p] + Pieces(after)
  {
    PairFoundAgain(p.name, p.value, after);
    var t := [c] + TextOf(p) + after;
    assert t[0] == c && t[1..] == p.name + "=" + p.value + after;
  }

  lemma OnePiece(secret: string -> bool, a: Piece, more: seq<Piece>)
    ensures Text([a] + more) == TextOf(a) + Text(more)
    ensures MaskedAll(secret, [a] + more) == [Masked(secret, a)] + MaskedAll(secret, more)
  {
    assert ([a] + more)[1..] == more;
  }

  // ------------------------------------------------------------ redacting twice

  /** Text that starts no pair is copied up to the character that ends its name. */
  lemma {:induction false} NamesAreCopied(secret: string -> bool, s: string)
    requires NameLength(s) < |s| ==> s[NameLength(s)] != '='
    ensures Redacted(secret, s) == s[..NameLength(s)] + Redacted(secret, s[NameLength(s)..])
    decreases |s|
  {
    var n, rest := NameLength(s), if s == "" then "" else s[1..];
    if n > 0 {
      assert n < |s| ==> rest[n - 1] == s[n];
      NamesAreCopied(secret, rest);
      assert !StartsPair(rest);
      RedactedStep(secret, s);
      SplitName(s, n, Redacted(secret, s[n..]));
    } else {
      assert s[..n] == [] && s[n..] == s;
    }
  }

  lemma SplitName(s: string, n: nat, after: string)
    requires 0 < n <= |s|
    ensures s[1..][n - 1..] == s[n..] && [s[0]] + (s[1..][..n - 1] + after) == s[..n] + after
  {
    assert s[..n] == [s[0]] + s[1..][..n - 1];
  }

  /** Redacting the rest of a text turns nothing in it into a pair. */
  lemma NoNewPair(secret: string -> bool, rest: string)
    requires !StartsPair(rest)
    ensures !StartsPair(Redacted(secret, rest))
  {
    var n, r := NameLength(rest), Redacted(secret, rest);
    if n == 0 {
      NameLengthIs(r, 0);
    } else {
      NamesAreCopied(secret, rest);
      assert forall i :: 0 <= i < n ==> r[i] == rest[i];
      assert n < |rest| ==> r[n] == rest[n];
      NameLengthIs(r, n);
    }
  }

  lemma MaskedShape(secret: string -> bool, p: Piece, after: string)
    requires Shaped(p, after)
    ensures Shaped(Masked(secret, p), Redacted(secret, after))
  {
  }

  lemma PairIsMasked(secret: string -> bool, c: char, p: Piece, after: string)
    requires Opens(c) && Shaped(p, after) && Pieces(Redacted(secret, after)) == MaskedAll(secret, Pieces(after))
    ensures Pieces(Redacted(secret, [c] + TextOf(p) + after)) == MaskedAll(secret, Pieces([c] + TextOf(p) + after))
  {
    RedactedPair(secret, c, p, after);
    MaskedShape(secret, p, after);
    PairFirst(c, p, after);
    PairFirst(c, Masked(secret, p), Redacted(secret, after));
    TwoPieces(secret, Plain(c), p, Pieces(after));
  }

  lemma PlainIsMasked(secret: string -> bool, s: string)
    requires s != "" && !(Opens(s[0]) && StartsPair(s[1..]))
    requires Pieces(Redacted(secret, s[1..])) == MaskedAll(secret, Pieces(s[1..]))
    ensures Pieces(Redacted(secret, s)) == MaskedAll(secret, Pieces(s))
  {
    RedactedStep(secret, s);
    if !StartsPair(s[1..]) { NoNewPair(secret, s[1..]); }
    OnePiece(secret, Plain(s[0]), Pieces(s[1..]));
  }

  /** No secret value survives: what the scan recognises in its own output is already masked. */
  lemma {:induction false} OutputIsMasked(secret: string -> bool, s: string)
    ensures Pieces(Redacted(secret, s)) == MaskedAll(secret, Pieces(s))
    decreases |s|
  {
    if s != "" {
      if Opens(s[0]) && StartsPair(s[1..]) {
        var p, after := SplitPair(s);
        OutputIsMasked(secret, after);
        PairIsMasked(secret, s[0], p, after);
      } else {
        OutputIsMasked(secret, s[1..]);
        PlainIsMasked(secret, s);
      }
    }
  }

  lemma {:induction false} MaskedTwice(secret: string -> bool, pieces: seq<Piece>)
    ensures MaskedAll(secret, MaskedAll(secret, pieces)) == MaskedAll(secret, pieces)
  {
  }

  /** Redacting twice is redacting once. */
  lemma Idempotent(secret: string -> bool, s: string)
    ensures Redacted(secret, Redacted(secret, s)) == Redacted(secret, s)
  {
    OutputIsMasked(secret, s);
    MaskedTwice(secret, Pieces(s));
  }

  // ------------------------------------------------------------ which values are hidden

  /** A `?` or `&` whose name or value may still go on where `a` ends. */
  predicate OpenAt(a: string, i: nat) {
    && i < |a| && (a[i] == '?' || a[i] == '&')
    && (i + 1 < |a| ==> a[i + 1] != '=')
    && forall j :: i < j < |a| ==> a[j] !in DELIMITERS
  }

  predicate NoneOpen(a: string) {
    forall i :: 0 <= i < |a| ==> !OpenAt(a, i)
  }

  /** No pair runs from `a` into `t`. */
  predicate Separated(a: string, t: string) {
    t == "" || t[0] in DELIMITERS || NoneOpen(a)
  }

  lemma StillNoneOpen(a: string, k: nat)
    requires k <= |a| && NoneOpen(a)
    ensures NoneOpen(a[k..])
  {
    forall i | 0 <= i < |a| - k ensures !OpenAt(a[k..], i) {
      assert !OpenAt(a, i + k);
      assert forall j :: i + k < j < |a| ==> a[j] == a[k..][j - k];
    }
  }

  lemma SameStart(a: string, t: string)
    requires a != "" && Separated(a, t) && Opens(a[0])
    ensures StartsPair(a[1..] + t) <==> StartsPair(a[1..])
  {
    var n := NameLength(a[1..]);
    assert !OpenAt(a, 0) || t == "" || t[0] in DELIMITERS;
    if n < |a| - 1 {
      NameLengthIs(a[1..] + t, n);
    } else if t == "" || t[0] in DELIMITERS {
      NameLengthIs(a[1..] + t, n);
    }
  }

  lemma PairKeepsShape(a: string, t: string, p: Piece, after: string)
    requires a != "" && (a[0] == '?' || a[0] == '&') && a == [a[0]] + TextOf(p) + after && Shaped(p, after) && Separated(a, t)
    ensures Shaped(p, after + t)
  {
    assert a[1] == p.name[0];
    if after == "" && t != "" && t[0] !in DELIMITERS {
      forall j | 0 < j < |a| ensures a[j] !in DELIMITERS { assert a[j] == TextOf(p)[j - 1]; }
      assert OpenAt(a, 0);
    }
  }

  lemma Reattach(c: string, p: string, after: string, t: string)
    ensures c + p + after + t == c + p + (after + t)
  {
  }

  /** A pair found in `a` is found in `a + t`. */
  lemma CutPair(secret: string -> bool, a: string, t: string, p: Piece, after: string)
    requires a != "" && Opens(a[0]) && a == [a[0]] + TextOf(p) + after && Shaped(p, after)
    requires Separated(a, t) && Redacted(secret, after + t) == Redacted(secret, after) + Redacted(secret, t)
    ensures Redacted(secret, a + t) == Redacted(secret, a) + Redacted(secret, t)
  {
    PairKeepsShape(a, t, p, after);
    Reattach([a[0]], TextOf(p), after, t);
    RedactedPair(secret, a[0], p, after);
    RedactedPair(secret, a[0], p, after + t);
    Reattach([a[0]], TextOf(Masked(secret, p)), Redacted(secret, after), Redacted(secret, t));
  }

  lemma PlainFirst(secret: string -> bool, c: char, rest: string)
    requires !(Opens(c) && StartsPair(rest))
    ensures Redacted(secret, [c] + rest) == [c] + Redacted(secret, rest)
  {
    var s := [c] + rest;
    assert s[0] == c && s[1..] == rest;
    RedactedStep(secret, s);
  }

  /** A character that starts no pair in `a` starts none in `a + t`. */
  lemma CutChar(secret: string -> bool, c: char, rest: string, t: string)
    requires !(Opens(c) && StartsPair(rest)) && !(Opens(c) && StartsPair(rest + t))
    requires Redacted(secret, rest + t) == Redacted(secret, rest) + Redacted(secret, t)
    ensures Redacted(secret, [c] + rest + t) == Redacted(secret, [c] + rest) + Redacted(secret, t)
  {
    Joined([c], rest, t);
    PlainFirst(secret, c, rest);
    PlainFirst(secret, c, rest + t);
    Joined([c], Redacted(secret, rest), Redacted(secret, t));
  }

  lemma Joined(a: string, b: string, c: string)
    ensures a + (b + c) == a + b + c
  {
  }

  lemma RestSeparated(a: string, t: string, k: nat)
    requires k <= |a| && Separated(a, t)
    ensures Separated(a[k..], t)
  {
    if NoneOpen(a) { StillNoneOpen(a, k); }
  }

  lemma NothingBefore(secret: string -> bool, t: string)
    ensures Redacted(secret, "" + t) == Redacted(secret, "") + Redacted(secret, t)
  {
    assert "" + t == t;
  }

  /** Text is redacted part by part wherever no pair runs across the cut. */
  lemma {:induction false} Cut(secret: string -> bool, a: string, t: string)
    requires Separated(a, t)
    ensures Redacted(secret, a + t) == Redacted(secret, a) + Redacted(secret, t)
    decreases |a|
  {
    if a == "" {
      NothingBefore(secret, t);
    } else if Opens(a[0]) && StartsPair(a[1..]) {
      var p, after := PairAtStart(a, t);
      Cut(secret, after, t);
      CutPair(secret, a, t, p, after);
    } else {
      RestSeparated(a, t, 1);
      Cut(secret, a[1..], t);
      if Opens(a[0]) { SameStart(a, t); }
      assert a == [a[0]] + a[1..];
      CutChar(secret, a[0], a[1..], t);
    }
  }

  lemma PairAtStart(a: string, t: string) returns (p: Piece, after: string)
    requires a != "" && Opens(a[0]) && StartsPair(a[1..]) && Separated(a, t)
    ensures |after| < |a| && a == [a[0]] + TextOf(p) + after && Shaped(p, after) && Separated(after, t)
  {
    p, after := SplitPair(a);
    assert a[|a| - |after|..] == after;
    RestSeparated(a, t, |a| - |after|);
  }

  /** A pair at the start of what follows the cut. */
  lemma CutAtPair(secret: string -> bool, a: string, c: char, p: Piece, b: string)
    requires Opens(c) && Shaped(p, b) && (c == '&' || NoneOpen(a))
    ensures Redacted(secret, a + ([c] + TextOf(p) + b)) == Redacted(secret, a) + [c] + TextOf(Masked(secret, p)) + Redacted(secret, b)
  {
    Cut(secret, a, [c] + TextOf(p) + b);
    RedactedPair(secret, c, p, b);
    Regroup(Redacted(secret, a), [c], TextOf(Masked(secret, p)), Redacted(secret, b));
  }

  lemma Regroup(a: string, b: string, c: string, d: string)
    ensures a + (b + c + d) == a + b + c + d
  {
  }

  lemma Spelled(a: string, c: string, name: string, v: string, b: string)
    ensures a + c + TextOf(Pair(name, v)) + b == a + c + name + "=" + v + b
  {
  }

  /**
   A pair after an ampersand, or after a question mark where none is open, is recognised
   wherever it stands: its value is replaced if the name is secret and copied if it is not.
   */
  lemma PairIsRecognised(secret: string -> bool, a: string, c: char, name: string, v: string, b: string)
    requires c == '&' || (c == '?' && NoneOpen(a))
    requires name != "" && forall i :: 0 <= i < |name| ==> !EndsName(name[i])
    requires (forall i :: 0 <= i < |v| ==> v[i] !in DELIMITERS) && (b != "" ==> b[0] in DELIMITERS)
    ensures Redacted(secret, a + [c] + name + "=" + v + b)
         == Redacted(secret, a) + [c] + name + "=" + (if secret(name) then "REDACTED" else v) + Redacted(secret, b)
  {
    CutAtPair(secret, a, c, Pair(name, v), b);
    Regroup(a, [c], TextOf(Pair(name, v)), b);
    Spelled(a, [c], name, v, b);
    Spelled(Redacted(secret, a), [c], name, if secret(name) then "REDACTED" else v, Redacted(secret, b));
  }

  /** The name and value that take up a `?name=v` behind text that is still open. */
  function Swallowing(open: string, name: string, v: string): Piece {
    var n := NameLength(open);
    if n == |open| then Pair(open + "?" + name, v) else Pair(open[..n], open[n + 1..] + "?" + name + "=" + v)
  }

  predicate FirstOpen(a: string, i: nat) {
    OpenAt(a, i) && forall j :: 0 <= j < i ==> !OpenAt(a, j)
  }

  lemma SwallowingSpells(open: string, name: string, v: string, b: string)
    requires open != "" ==> open[0] != '='
    requires forall j :: 0 <= j < |open| ==> open[j] !in DELIMITERS
    requires name != "" && forall i :: 0 <= i < |name| ==> !EndsName(name[i])
    requires (forall i :: 0 <= i < |v| ==> v[i] !in DELIMITERS) && (b != "" ==> b[0] in DELIMITERS)
    ensures Shaped(Swallowing(open, name, v), b)
    ensures TextOf(Swallowing(open, name, v)) == open + "?" + name + "=" + v
  {
    var n := NameLength(open);
    if n < |open| { assert open == open[..n] + "=" + open[n + 1..]; }
  }

  lemma Unswallowed(a: string, c: string, open: string, name: string, v: string, b: string)
    ensures a + (c + (open + "?" + name + "=" + v) + b) == (a + c + open) + "?" + name + "=" + v + b
  {
    var pair := name + "=" + v;
    assert open + "?" + name + "=" + v == open + "?" + pair;
    assert (a + c + open) + "?" + name + "=" + v + b == (a + c + open) + "?" + pair + b;
  }

  lemma FirstOpenSeparates(a: string, i: nat)
    requires FirstOpen(a, i) && a[i] == '?'
    ensures NoneOpen(a[..i])
  {
    forall j | 0 <= j < i ensures !OpenAt(a[..i], j) {
      assert !OpenAt(a, j);
    }
  }

  /** Behind open text, the pair is part of the one that is open. */
  lemma PairIsSwallowed(secret: string -> bool, a: string, i: nat, name: string, v: string, b: string)
    requires FirstOpen(a, i)
    requires name != "" && forall i :: 0 <= i < |name| ==> !EndsName(name[i])
    requires (forall i :: 0 <= i < |v| ==> v[i] !in DELIMITERS) && (b != "" ==> b[0] in DELIMITERS)
    ensures Redacted(secret, a + "?" + name + "=" + v + b)
         == Redacted(secret, a[..i]) + [a[i]] + TextOf(Masked(secret, Swallowing(a[i + 1..], name, v))) + Redacted(secret, b)
  {
    var open := a[i + 1..];
    SwallowingSpells(open, name, v, b);
    if a[i] == '?' { FirstOpenSeparates(a, i); }
    CutAtPair(secret, a[..i], a[i], Swallowing(open, name, v), b);
    assert a == a[..i] + [a[i]] + open;
    Unswallowed(a[..i], [a[i]], open, name, v, b);
  }

  lemma SameMiddle(a: string, b: string, v: string, w: string)
    ensures a + v + b == a + w + b <==> v == w
  {
    if a + v + b == a + w + b {
      assert v == (a + v + b)[|a|..|a| + |v|] && w == (a + w + b)[|a|..|a| + |w|];
    }
  }

  /** Two values of one pair show the same exactly if the name is secret. */
  lemma SameShownIff(secret: string -> bool, before: string, name: string, left: string, v: string, w: string, after: string)
    requires v != w
    ensures before + TextOf(Masked(secret, Pair(name, left + v))) + after == before + TextOf(Masked(secret, Pair(name, left + w))) + after
       <==> secret(name)
  {
    if !secret(name) {
      SameMiddle(before + name + "=" + left, after, v, w);
      assert before + (name + "=" + (left + v)) + after == before + name + "=" + left + v + after;
      assert before + (name + "=" + (left + w)) + after == before + name + "=" + left + w + after;
    }
  }

  // ------------------------------------------------------------ the names on the list

  lemma ListedAreLetters(name: string, i: nat)
    requires name in SENSITIVE_PARAMS && i < |name|
    ensures 'a' <= name[i] <= 'z'
  {
  }

  lemma {:induction false} LettersStay(name: string)
    requires forall i :: 0 <= i < |name| ==> 'a' <= name[i] <= 'z'
    ensures Normalised(name) == name
  {
    if name != "" { LettersStay(name[1..]); }
  }

  /** Every listed name is sensitive, and can be the name of a pair. */
  lemma ListedIsSensitive(name: string)
    requires name in SENSITIVE_PARAMS
    ensures IsSensitive(name) && forall i :: 0 <= i < |name| ==> !EndsName(name[i])
    ensures name != ""
  {
    ListedIsLetters(name);
    LettersStay(name);
    LettersEndNothing(name);
  }

  lemma ListedIsLetters(name: string)
    requires name in SENSITIVE_PARAMS
    ensures name != "" && forall i :: 0 <= i < |name| ==> 'a' <= name[i] <= 'z'
  {
    forall i | 0 <= i < |name| ensures 'a' <= name[i] <= 'z' { ListedAreLetters(name, i); }
  }

  lemma LettersEndNothing(name: string)
    requires forall i :: 0 <= i < |name| ==> 'a' <= name[i] <= 'z'
    ensures forall i :: 0 <= i < |name| ==> !EndsName(name[i])
  {
  }

  /** A name with a question mark in it never is. */
  lemma AskingIsNotSensitive(a: string, b: string)
    ensures !IsSensitive(a + "?" + b)
  {
    NormalisedJoins(a, "?");
    NormalisedJoins(a + "?", b);
    var n, i := Normalised(a + "?" + b), |Normalised(a)|;
    assert n[i] == '?';
    if n in SENSITIVE_PARAMS { ListedAreLetters(n, i); }
  }

  /**
   When the value of a sensitive name after a question mark is hidden: exactly if the text
   before it leaves no pair open, or the first one it leaves open has a sensitive name and
   its equals sign.
   */
  lemma HiddenIff(a: string, name: string, b: string, v: string, w: string)
    requires IsSensitive(name) && name != "" && forall i :: 0 <= i < |name| ==> !EndsName(name[i])
    requires v != w && forall i :: 0 <= i < |v| ==> v[i] !in DELIMITERS
    requires (forall i :: 0 <= i < |w| ==> w[i] !in DELIMITERS) && (b != "" ==> b[0] in DELIMITERS)
    ensures Redacted(IsSensitive, a + "?" + name + "=" + v + b) == Redacted(IsSensitive, a + "?" + name + "=" + w + b)
       <==> forall i :: 0 <= i < |a| && FirstOpen(a, i) ==> '=' in a[i + 1..] && IsSensitive(a[i + 1..][..NameLength(a[i + 1..])])
  {
    if NoneOpen(a) {
      PairIsRecognised(IsSensitive, a, '?', name, v, b);
      PairIsRecognised(IsSensitive, a, '?', name, w, b);
    } else {
      var i := LeastOpen(a);
      SwallowedHiddenIff(a, i, name, b, v, w);
    }
  }

  lemma LeastOpen(a: string) returns (i: nat)
    requires !NoneOpen(a)
    ensures i < |a| && FirstOpen(a, i) && forall j :: 0 <= j < |a| && FirstOpen(a, j) ==> j == i
  {
    i := 0;
    while !OpenAt(a, i)
      invariant i <= |a| && forall j :: 0 <= j < i ==> !OpenAt(a, j)
      decreases |a| - i
    {
      i := i + 1;
    }
  }

  lemma SwallowedHiddenIff(a: string, i: nat, name: string, b: string, v: string, w: string)
    requires FirstOpen(a, i) && name != "" && forall i :: 0 <= i < |name| ==> !EndsName(name[i])
    requires v != w && forall i :: 0 <= i < |v| ==> v[i] !in DELIMITERS
    requires (forall i :: 0 <= i < |w| ==> w[i] !in DELIMITERS) && (b != "" ==> b[0] in DELIMITERS)
    ensures Redacted(IsSensitive, a + "?" + name + "=" + v + b) == Redacted(IsSensitive, a + "?" + name + "=" + w + b)
       <==> '=' in a[i + 1..] && IsSensitive(a[i + 1..][..NameLength(a[i + 1..])])
  {
    var open, before, after := a[i + 1..], Redacted(IsSensitive, a[..i]) + [a[i]], Redacted(IsSensitive, b);
    var n := NameLength(open);
    PairIsSwallowed(IsSensitive, a, i, name, v, b);
    PairIsSwallowed(IsSensitive, a, i, name, w, b);
    if n == |open| {
      SameShownIff(IsSensitive, before, open + "?" + name, "", v, w, after);
      assert "" + v == v && "" + w == w;
      AskingIsNotSensitive(open, name);
    } else {
      SameShownIff(IsSensitive, before, open[..n], open[n + 1..] + "?" + name + "=", v, w, after);
      assert open[n] == '=';
    }
  }
}
