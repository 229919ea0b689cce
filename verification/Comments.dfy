/** The hand-written scanner that finds forbidden comments in Rust sources.

The lexical shapes are specified by what they mean: the first closing marker of a raw string, the first
unescaped quote, the matching end of a nested block comment. Character classes are oracles. */
module Comments {
  import opened Common

  datatype RawClasses = RawClasses(isAlnum: char -> bool, isSpace: char -> bool)

  /** No character that starts a string is white space. */
  type Classes = c: RawClasses | !c.isSpace('r') && !c.isSpace('b') && !c.isSpace('"')
    witness RawClasses(x => false, x => false)

  predicate StartsWith(s: string, i: nat, p: string) {
    i + |p| <= |s| && s[i..i + |p|] == p
  }

  predicate AfterIdentifier(cl: Classes, s: string, i: nat)
    requires i <= |s|
  {
    i > 0 && (cl.isAlnum(s[i - 1]) || s[i - 1] == '_')
  }

  // ---------------------------------------------------------------- searching

  /** The first occurrence at or after `from`. */
  function Find(s: string, p: string, from: nat): Option<nat>
    decreases |s| - from
  {
    if StartsWith(s, from, p) then Some(from)
    else if from < |s| then Find(s, p, from + 1)
    else None
  }

  lemma {:induction false} FindIsFirst(s: string, p: string, from: nat)
    ensures Find(s, p, from).Some? ==>
              && from <= Find(s, p, from).value && StartsWith(s, Find(s, p, from).value, p)
              && forall i :: from <= i < Find(s, p, from).value ==> !StartsWith(s, i, p)
    ensures Find(s, p, from).None? ==> forall i :: from <= i <= |s| ==> !StartsWith(s, i, p)
    decreases |s| - from
  {
    if !StartsWith(s, from, p) && from < |s| {
      FindIsFirst(s, p, from + 1);
    }
  }

  function Hashes(s: string, i: nat): nat
    decreases |s| - i
  {
    if i < |s| && s[i] == '#' then 1 + Hashes(s, i + 1) else 0
  }

  function Marker(hashes: nat): string {
    ['"'] + seq(hashes, _ => '#')
  }

  lemma {:induction false} HashesBound(s: string, i: nat)
    ensures i <= |s| ==> i + Hashes(s, i) <= |s|
    decreases |s| - i
  {
    if i < |s| && s[i] == '#' {
      HashesBound(s, i + 1);
    }
  }

  // ---------------------------------------------------------------- raw strings

  function RawPrefix(s: string, start: nat): nat {
    if StartsWith(s, start, "br") then 2 else 1
  }

  /** Whether a raw string begins here: its prefix, not glued to an identifier, then hashes and a quote. */
  predicate BeginsRaw(cl: Classes, s: string, start: nat)
    requires start < |s|
  {
    var open := start + RawPrefix(s, start);
    && (StartsWith(s, start, "br") || s[start] == 'r')
    && !AfterIdentifier(cl, s, start)
    && open + Hashes(s, open) < |s| && s[open + Hashes(s, open)] == '"'
  }

  /** Past the first quote followed by as many hashes, or the end of the text. */
  function RawEnd(cl: Classes, s: string, start: nat): Option<nat>
    requires start < |s|
  {
    if !BeginsRaw(cl, s, start) then None
    else
      var open := start + RawPrefix(s, start);
      var hashes := Hashes(s, open);
      var close := Find(s, Marker(hashes), open + hashes + 1);
      Some(if close.None? then |s| else close.value + hashes + 1)
  }

  /** With the hashes counted and the opening quote seen, the rest is one search. */
  lemma RawFound(cl: Classes, s: string, start: nat, hashes: nat)
    requires start < |s| && BeginsRaw(cl, s, start) && hashes == Hashes(s, start + RawPrefix(s, start))
    ensures var close := Find(s, Marker(hashes), start + RawPrefix(s, start) + hashes + 1);
            var end := if close.None? then |s| else close.value + hashes + 1;
            RawEnd(cl, s, start) == Some(end) && start < end <= |s|
  {
    FindIsFirst(s, Marker(hashes), start + RawPrefix(s, start) + hashes + 1);
  }

  method RawStringEnd(cl: Classes, s: string, start: nat) returns (end: Option<nat>)
    requires start < |s|
    ensures end == RawEnd(cl, s, start)
    ensures end.Some? ==> start < end.value <= |s|
  {
    var prefix := if StartsWith(s, start, "br") then 2 else 1;
    if !(prefix == 2 || s[start] == 'r') {
      return None;
    }
    if AfterIdentifier(cl, s, start) {
      return None;
    }
    var open := start + prefix;
    var cursor := open;
    var hashes := 0;
    HashesBound(s, open);
    while cursor < |s| && s[cursor] == '#'
      invariant open <= cursor <= |s| && cursor == open + hashes
      invariant Hashes(s, open) == hashes + Hashes(s, cursor)
    {
      hashes := hashes + 1;
      cursor := cursor + 1;
    }
    if cursor >= |s| || s[cursor] != '"' {
      return None;
    }
    RawFound(cl, s, start, hashes);
    var close := Find(s, Marker(hashes), cursor + 1);
    end := Some(if close.None? then |s| else close.value + hashes + 1);
  }

  // ---------------------------------------------------------------- quoted strings

  /** Backslashes immediately before position `i`, not looking below `from`. */
  function Backslashes(s: string, from: nat, i: nat): nat
    requires from <= i <= |s|
    decreases i
  {
    if from < i && s[i - 1] == '\\' then 1 + Backslashes(s, from, i - 1) else 0
  }

  /** A quote after an even number of backslashes. */
  predicate ClosesAt(s: string, from: nat, i: nat)
    requires from <= i < |s|
  {
    s[i] == '"' && Backslashes(s, from, i) % 2 == 0
  }

  /** Past the first closing quote at or after `i`, or the end of the text. */
  function QuoteEnd(s: string, from: nat, i: nat): nat
    requires from <= i <= |s|
    decreases |s| - i
  {
    if i == |s| then |s| else if ClosesAt(s, from, i) then i + 1 else QuoteEnd(s, from, i + 1)
  }

  predicate BeginsQuoted(cl: Classes, s: string, start: nat)
    requires start < |s|
  {
    if StartsWith(s, start, "b\"") then !AfterIdentifier(cl, s, start) else s[start] == '"'
  }

  function QuotedBody(s: string, start: nat): nat {
    start + (if StartsWith(s, start, "b\"") then 2 else 1)
  }

  function QuotedEnd(cl: Classes, s: string, start: nat): Option<nat>
    requires start < |s|
  {
    if !BeginsQuoted(cl, s, start) then None else Some(QuoteEnd(s, QuotedBody(s, start), QuotedBody(s, start)))
  }

  lemma {:induction false} QuoteEndBounds(s: string, from: nat, i: nat)
    requires from <= i <= |s|
    ensures i <= QuoteEnd(s, from, i) <= |s|
    ensures forall k :: i <= k < QuoteEnd(s, from, i) - 1 ==> !ClosesAt(s, from, k)
    ensures QuoteEnd(s, from, i) == |s| || (i < QuoteEnd(s, from, i) && ClosesAt(s, from, QuoteEnd(s, from, i) - 1))
    decreases |s| - i
  {
    if i < |s| && !ClosesAt(s, from, i) {
      QuoteEndBounds(s, from, i + 1);
    }
  }

  /** The escape flag of the loop is the parity of the backslashes just before the cursor. */
  method QuotedStringEnd(cl: Classes, s: string, start: nat) returns (end: Option<nat>)
    requires start < |s|
    ensures end == QuotedEnd(cl, s, start)
    ensures end.Some? ==> start < end.value <= |s|
  {
    var prefix := if StartsWith(s, start, "b\"") then 2 else 1;
    if !(prefix == 2 || s[start] == '"') {
      return None;
    }
    if prefix == 2 && AfterIdentifier(cl, s, start) {
      return None;
    }
    var from := start + prefix;
    var cursor := from;
    var escaped := false;
    while cursor < |s|
      invariant from <= cursor <= |s|
      invariant escaped <==> Backslashes(s, from, cursor) % 2 == 1
      invariant QuoteEnd(s, from, from) == QuoteEnd(s, from, cursor)
    {
      var character := s[cursor];
      if escaped {
        escaped := false;
      } else if character == '\\' {
        escaped := true;
      } else if character == '"' {
        return Some(cursor + 1);
      }
      cursor := cursor + 1;
    }
    end := Some(|s|);
  }

  // ---------------------------------------------------------------- block comments

  /** The reference: a recursive-descent reader of a comment body, returning where its closing mark ends. */
  function BodyEnd(s: string, i: nat): (end: Option<nat>)
    ensures end.Some? ==> i + 2 <= end.value <= |s|
    decreases |s| - i
  {
    if i >= |s| then None
    else if StartsWith(s, i, "/*") then
      var inner := BodyEnd(s, i + 2);
      if inner.None? then None else BodyEnd(s, inner.value)
    else if StartsWith(s, i, "*/") then Some(i + 2)
    else BodyEnd(s, i + 1)
  }

  function BlockEnd(s: string, start: nat): nat {
    var end := BodyEnd(s, start + 2);
    if end.Some? then end.value else |s|
  }

  /** Closing `depth` bodies one after the other. */
  function CloseAll(s: string, i: nat, depth: nat): Option<nat>
    decreases depth
  {
    if depth == 0 then Some(i)
    else
      var end := BodyEnd(s, i);
      if end.None? then None else CloseAll(s, end.value, depth - 1)
  }

  function MarkWidth(s: string, i: nat): nat {
    if StartsWith(s, i, "/*") || StartsWith(s, i, "*/") then 2 else 1
  }

  function MarkBalance(s: string, i: nat): int {
    if StartsWith(s, i, "/*") then 1 else if StartsWith(s, i, "*/") then -1 else 0
  }

  /** The position and the open depth after `n` marks or characters of a body. */
  function Cut(s: string, i: nat, n: nat): nat {
    if n == 0 then i else Cut(s, i, n - 1) + MarkWidth(s, Cut(s, i, n - 1))
  }

  function Balance(s: string, i: nat, n: nat): int {
    if n == 0 then 1 else Balance(s, i, n - 1) + MarkBalance(s, Cut(s, i, n - 1))
  }

  ghost predicate InsideAt(s: string, i: nat, n: nat) {
    Balance(s, i, n) > 0 && Cut(s, i, n) < |s|
  }

  /** Before each of the first `n` steps the reader was inside the comment and inside the text. */
  ghost predicate Inside(s: string, i: nat, n: nat) {
    n > 0 ==> Inside(s, i, n - 1) && InsideAt(s, i, n - 1)
  }

  /** After `n` steps through the body of the comment at `start` the reader is at `cursor`, `depth` deep. */
  ghost predicate Scanned(s: string, start: nat, n: nat, cursor: nat, depth: nat) {
    cursor == Cut(s, start + 2, n) && depth == Balance(s, start + 2, n) && Inside(s, start + 2, n)
  }

  /** `end` is the first position where the balance is back at zero, or the end of the text. */
  ghost predicate FirstReturn(s: string, start: nat, n: nat, end: nat) {
    var i := start + 2;
    && end == Cut(s, i, n)
    && (Balance(s, i, n) == 0 || end == |s|)
    && forall m: nat :: m < n ==> InsideAt(s, i, m)
  }

  lemma {:induction false} InsideAll(s: string, i: nat, n: nat)
    requires Inside(s, i, n)
    ensures forall m: nat :: m < n ==> InsideAt(s, i, m)
  {
    if n > 0 {
      InsideAll(s, i, n - 1);
    }
  }

  lemma ScanOn(s: string, start: nat, n: nat, cursor: nat, depth: nat)
    requires Scanned(s, start, n, cursor, depth) && cursor < |s| && depth > 0
    ensures depth + MarkBalance(s, cursor) >= 0
    ensures Scanned(s, start, n + 1, cursor + MarkWidth(s, cursor), depth + MarkBalance(s, cursor))
  {
  }

  /** One step of the counter loop moves along the marks and keeps what the recursive reader would do. */
  lemma ScanStep(s: string, i: nat, depth: nat)
    requires i < |s| && depth > 0
    ensures depth + MarkBalance(s, i) >= 0 && i + MarkWidth(s, i) <= |s|
    ensures CloseAll(s, i, depth) == CloseAll(s, i + MarkWidth(s, i), depth + MarkBalance(s, i))
  {
    if StartsWith(s, i, "/*") {
      var inner := BodyEnd(s, i + 2);
      assert CloseAll(s, i + 2, depth + 1) == if inner.None? then None else CloseAll(s, inner.value, depth);
    }
  }

  /** The loop with a depth counter stops where the recursive reader of the body stops. */
  method BlockCommentEnd(s: string, start: nat) returns (end: nat)
    requires StartsWith(s, start, "/*")
    ensures end == BlockEnd(s, start) && start + 2 <= end <= |s|
  {
    var cursor := start + 2;
    var depth: nat := 1;
    while cursor < |s| && depth > 0
      invariant start + 2 <= cursor <= |s|
      invariant CloseAll(s, start + 2, 1) == CloseAll(s, cursor, depth)
      decreases |s| - cursor
    {
      ScanStep(s, cursor, depth);
      if StartsWith(s, cursor, "/*") {
        depth := depth + 1;
        cursor := cursor + 2;
      } else if StartsWith(s, cursor, "*/") {
        depth := depth - 1;
        cursor := cursor + 2;
      } else {
        cursor := cursor + 1;
      }
    }
    end := cursor;
    Stopped(s, start, cursor, depth);
  }

  lemma {:induction false} ScanToTheEnd(s: string, start: nat, n: nat, cursor: nat, depth: nat)
    returns (last: nat, end: nat, left: nat)
    requires cursor <= |s| && Scanned(s, start, n, cursor, depth)
    ensures Scanned(s, start, last, end, left) && end <= |s| && (left == 0 || end == |s|)
    decreases |s| - cursor
  {
    last, end, left := n, cursor, depth;
    if cursor < |s| && depth > 0 {
      ScanOn(s, start, n, cursor, depth);
      last, end, left := ScanToTheEnd(s, start, n + 1, cursor + MarkWidth(s, cursor), depth + MarkBalance(s, cursor));
    }
  }

  /** Anywhere along the way, closing the comments still open is closing the whole comment. */
  lemma {:induction false} ScanCloses(s: string, start: nat, n: nat, cursor: nat, depth: nat)
    requires Scanned(s, start, n, cursor, depth)
    ensures CloseAll(s, start + 2, 1) == CloseAll(s, cursor, depth)
  {
    if n > 0 {
      var before, open: int := Cut(s, start + 2, n - 1), Balance(s, start + 2, n - 1);
      ScanCloses(s, start, n - 1, before, open);
      ScanStep(s, before, open);
    }
  }

  lemma Stopped(s: string, start: nat, cursor: nat, depth: nat)
    requires cursor <= |s| && (depth == 0 || cursor == |s|)
    requires CloseAll(s, start + 2, 1) == CloseAll(s, cursor, depth)
    ensures cursor == BlockEnd(s, start)
  {
    assert depth > 0 ==> CloseAll(s, cursor, depth) == None;
    var end := BodyEnd(s, start + 2);
    assert end.Some? ==> CloseAll(s, end.value, 0) == Some(end.value);
  }

  /** The end of a block comment is the first position where the balance of its marks returns to zero, or the
  end of the text if it never does. */
  lemma BlockEndIsFirstReturn(s: string, start: nat) returns (n: nat)
    requires StartsWith(s, start, "/*")
    ensures FirstReturn(s, start, n, BlockEnd(s, start))
  {
    var end, left;
    n, end, left := ScanToTheEnd(s, start, 0, start + 2, 1);
    ScanCloses(s, start, n, end, left);
    Stopped(s, start, end, left);
    InsideAll(s, start + 2, n);
  }

  /** A piece of a comment body: a character that starts no mark, or a nested comment. */
  datatype Piece = Plain(c: char) | Nested(body: seq<Piece>)

  function PieceText(p: Piece): string {
    match p
    case Plain(c) => [c]
    case Nested(body) => "/*" + BodyText(body) + "*/"
  }

  function BodyText(body: seq<Piece>): string {
    if body == [] then "" else PieceText(body[0]) + BodyText(body[1..])
  }

  lemma BodyTextFirst(p: Piece, rest: seq<Piece>)
    ensures BodyText([p] + rest) == PieceText(p) + BodyText(rest)
  {
    assert ([p] + rest)[0] == p && ([p] + rest)[1..] == rest;
  }

  lemma NestedFirst(s: string, i: nat, middle: nat, end: nat, inner: seq<Piece>, rest: seq<Piece>)
    requires StartsWith(s, i, "/*") && i + 2 <= middle <= end <= |s|
    requires s[i + 2..middle] == BodyText(inner) + "*/" && s[middle..end] == BodyText(rest) + "*/"
    ensures s[i..end] == BodyText([Nested(inner)] + rest) + "*/"
  {
    calc {
      s[i..end];
    == // three adjacent slices
      s[i..i + 2] + s[i + 2..middle] + s[middle..end];
    == // what each of them is
      "/*" + (BodyText(inner) + "*/") + (BodyText(rest) + "*/");
    == // concatenation is associative
      PieceText(Nested(inner)) + BodyText(rest) + "*/";
    == { BodyTextFirst(Nested(inner), rest); }
      BodyText([Nested(inner)] + rest) + "*/";
    }
  }

  lemma PlainFirst(s: string, i: nat, end: nat, rest: seq<Piece>)
    requires i + 1 <= end <= |s| && s[i + 1..end] == BodyText(rest) + "*/"
    ensures s[i..end] == BodyText([Plain(s[i])] + rest) + "*/"
  {
    BodyTextFirst(Plain(s[i]), rest);
    assert s[i..end] == [s[i]] + s[i + 1..end];
  }

  /** A body that closes is well nested: the text up to its closing mark is a sequence of pieces. */
  lemma {:induction false} BodyIsNested(s: string, i: nat) returns (body: seq<Piece>)
    requires BodyEnd(s, i).Some?
    ensures s[i..BodyEnd(s, i).value] == BodyText(body) + "*/"
    decreases |s| - i
  {
    if StartsWith(s, i, "/*") {
      var inner := BodyIsNested(s, i + 2);
      var middle := BodyEnd(s, i + 2).value;
      var rest := BodyIsNested(s, middle);
      NestedFirst(s, i, middle, BodyEnd(s, i).value, inner, rest);
      body := [Nested(inner)] + rest;
    } else if StartsWith(s, i, "*/") {
      body := [];
    } else {
      var rest := BodyIsNested(s, i + 1);
      PlainFirst(s, i, BodyEnd(s, i).value, rest);
      body := [Plain(s[i])] + rest;
    }
  }

  // ---------------------------------------------------------------- tokens

  datatype Kind = Str | DocLine | LineComment | DocBlock | BlockComment | Newline | Code

  datatype Token = Token(start: nat, end: nat, kind: Kind)

  function LineEnd(s: string, start: nat): nat {
    var newline := Find(s, "\n", start + 2);
    if newline.Some? then newline.value else |s|
  }

  lemma RawEndBounds(cl: Classes, s: string, start: nat)
    requires start < |s|
    ensures RawEnd(cl, s, start).Some? ==> start < RawEnd(cl, s, start).value <= |s|
  {
    if BeginsRaw(cl, s, start) {
      RawFound(cl, s, start, Hashes(s, start + RawPrefix(s, start)));
    }
  }

  lemma QuotedEndBounds(cl: Classes, s: string, start: nat)
    requires start < |s|
    ensures QuotedEnd(cl, s, start).Some? ==> start < QuotedEnd(cl, s, start).value <= |s|
  {
    if BeginsQuoted(cl, s, start) {
      QuoteEndBounds(s, QuotedBody(s, start), QuotedBody(s, start));
    }
  }

  lemma LineEndBounds(s: string, start: nat)
    requires StartsWith(s, start, "//")
    ensures start < LineEnd(s, start) <= |s| && NoNewline(s, start, LineEnd(s, start))
    ensures LineEnd(s, start) == |s| || s[LineEnd(s, start)] == '\n'
  {
    FindIsFirst(s, "\n", start + 2);
    forall q | start <= q < LineEnd(s, start) ensures s[q] != '\n' {
      assert s[start..start + 2][0] == '/' && s[start..start + 2][1] == '/';
      assert start + 2 <= q ==> !StartsWith(s, q, "\n");
      assert s[q..q + 1] == [s[q]];
    }
  }

  predicate NoNewline(s: string, from: nat, to: nat)
    requires from <= to <= |s|
  {
    forall q :: from <= q < to ==> s[q] != '\n'
  }

  /** What the text at `i` is: a string if one begins there, else a comment if one does, else one character. */
  function NextToken(cl: Classes, s: string, i: nat): (t: Token)
    requires i < |s|
    ensures t.start == i < t.end <= |s|
  {
    RawEndBounds(cl, s, i);
    QuotedEndBounds(cl, s, i);
    if RawEnd(cl, s, i).Some? then Token(i, RawEnd(cl, s, i).value, Str)
    else if QuotedEnd(cl, s, i).Some? then Token(i, QuotedEnd(cl, s, i).value, Str)
    else if StartsWith(s, i, "//") then
      LineEndBounds(s, i);
      Token(i, LineEnd(s, i), if StartsWith(s, i, "///") || StartsWith(s, i, "//!") then DocLine else LineComment)
    else if StartsWith(s, i, "/*") then
      Token(i, BlockEnd(s, i), if StartsWith(s, i, "/**") || StartsWith(s, i, "/*!") then DocBlock else BlockComment)
    else Token(i, i + 1, if s[i] == '\n' then Newline else Code)
  }

  function Tokens(cl: Classes, s: string, i: nat): (toks: seq<Token>)
    requires i <= |s|
    ensures forall j :: 0 <= j < |toks| ==> toks[j].start <= |s|
    decreases |s| - i
  {
    if i == |s| then [] else [NextToken(cl, s, i)] + Tokens(cl, s, NextToken(cl, s, i).end)
  }

  /** Where token `k` starts; past the last one, the end of the text. */
  function TokenStart(s: string, toks: seq<Token>, k: nat): nat
    requires k <= |toks|
  {
    if k < |toks| then toks[k].start else |s|
  }

  /** Token `k` is what the text says at its start, and ends where the next one starts. */
  ghost predicate Fits(cl: Classes, s: string, toks: seq<Token>, k: nat)
    requires k < |toks|
  {
    && toks[k].start < |s| && toks[k] == NextToken(cl, s, toks[k].start)
    && toks[k].end == TokenStart(s, toks, k + 1)
  }

  /** The tokens cover the text from `from` without gap or overlap, each being what the text says there. */
  ghost predicate Tile(cl: Classes, s: string, from: nat, toks: seq<Token>) {
    && TokenStart(s, toks, 0) == from <= |s|
    && (forall k :: 0 <= k < |toks| ==> toks[k].start < toks[k].end <= |s|)
    && (forall k :: 0 <= k < |toks| ==> Fits(cl, s, toks, k))
    && (forall j, k :: 0 <= j < k < |toks| ==> toks[j].end <= toks[k].start)
  }

  lemma {:induction false} TokensTile(cl: Classes, s: string, i: nat)
    requires i <= |s|
    ensures Tile(cl, s, i, Tokens(cl, s, i))
    decreases |s| - i
  {
    if i < |s| {
      var t := NextToken(cl, s, i);
      var rest := Tokens(cl, s, t.end);
      TokensTile(cl, s, t.end);
      var toks := [t] + rest;
      assert forall k :: 0 < k < |toks| ==> toks[k] == rest[k - 1];
      assert Fits(cl, s, toks, 0);
      forall k | 0 < k < |toks| ensures Fits(cl, s, toks, k) && t.end <= toks[k].start {
        assert Fits(cl, s, rest, k - 1) && Fits(cl, s, rest, 0);
        assert k > 1 ==> rest[0].end <= rest[k - 1].start;
      }
    }
  }

  /** No other way of cutting the text agrees with what it says at each cut. */
  lemma {:induction false} TilingIsUnique(cl: Classes, s: string, i: nat, toks: seq<Token>)
    requires i <= |s| && Tile(cl, s, i, toks)
    ensures toks == Tokens(cl, s, i)
    decreases |s| - i
  {
    assert toks != [] ==> Fits(cl, s, toks, 0);
    if i < |s| {
      var rest := toks[1..];
      assert forall k :: 0 <= k < |rest| ==> rest[k] == toks[k + 1];
      forall k | 0 <= k < |rest| ensures Fits(cl, s, rest, k) {
        assert Fits(cl, s, toks, k + 1);
      }
      TilingIsUnique(cl, s, toks[0].end, rest);
    }
  }

  // ---------------------------------------------------------------- findings

  function Newlines(s: string): nat {
    if s == [] then 0 else Newlines(s[..|s| - 1]) + (if s[|s| - 1] == '\n' then 1 else 0)
  }

  lemma {:induction false} NewlinesAppend(a: string, b: string)
    ensures Newlines(a + b) == Newlines(a) + Newlines(b)
  {
    if b == [] {
      assert a + b == a;
    } else {
      NewlinesAppend(a, b[..|b| - 1]);
      assert (a + b)[..|a + b| - 1] == a + b[..|b| - 1];
    }
  }

  lemma {:induction false} NoNewlinesIsNone(s: string)
    ensures Newlines(s) == 0 <==> '\n' !in s
  {
    if s != [] {
      NoNewlinesIsNone(s[..|s| - 1]);
      assert s == s[..|s| - 1] + [s[|s| - 1]];
    }
  }

  lemma LinesAdvance(s: string, from: nat, to: nat)
    requires from <= to <= |s|
    ensures Newlines(s[..to]) == Newlines(s[..from]) + Newlines(s[from..to])
    ensures Newlines(s[from..to]) == 0 <==> NoNewline(s, from, to)
  {
    assert s[..to] == s[..from] + s[from..to];
    NewlinesAppend(s[..from], s[from..to]);
    NoNewlinesIsNone(s[from..to]);
    assert forall q :: from <= q < to ==> s[q] == s[from..to][q - from];
  }

  ghost predicate InCode(toks: seq<Token>, p: nat) {
    exists k :: 0 <= k < |toks| && toks[k].kind in {Str, Code} && toks[k].start <= p < toks[k].end
  }

  /** A visible character of code or of a string on the line of `c`, before it. */
  ghost predicate CodeOnLineAt(cl: Classes, s: string, toks: seq<Token>, c: nat, p: nat)
    requires c <= |s|
  {
    p < c && InCode(toks, p) && !cl.isSpace(s[p]) && NoNewline(s, p, c)
  }

  ghost predicate CodeOnLine(cl: Classes, s: string, toks: seq<Token>, c: nat)
    requires c <= |s|
  {
    exists p: nat :: CodeOnLineAt(cl, s, toks, c, p)
  }

  datatype Finding = EndOfLine(line: nat) | NonDocLine(line: nat) | Block(line: nat)

  /** What one token calls for: a comment that is not documentation is reported, with the line it starts on. */
  ghost function FindingOf(cl: Classes, s: string, toks: seq<Token>, t: Token): seq<Finding>
    requires t.start <= |s|
  {
    CommentFinding(t.kind, 1 + Newlines(s[..t.start]), CodeOnLine(cl, s, toks, t.start))
  }

  function CommentFinding(kind: Kind, line: nat, code: bool): seq<Finding> {
    match kind
    case LineComment => [if code then EndOfLine(line) else NonDocLine(line)]
    case BlockComment => [Block(line)]
    case _ => []
  }

  /** The findings of the first `k` tokens, in order. */
  ghost function FindingsOf(cl: Classes, s: string, toks: seq<Token>, k: nat): seq<Finding>
    requires k <= |toks| && forall j :: 0 <= j < |toks| ==> toks[j].start <= |s|
  {
    if k == 0 then [] else FindingsOf(cl, s, toks, k - 1) + FindingOf(cl, s, toks, toks[k - 1])
  }

  /** Whether the last line of a piece of text has a visible character. */
  predicate LastLineHasText(cl: Classes, s: string) {
    s != [] && s[|s| - 1] != '\n' && (!cl.isSpace(s[|s| - 1]) || LastLineHasText(cl, s[..|s| - 1]))
  }

  ghost predicate VisibleAt(cl: Classes, s: string, p: nat) {
    p < |s| && !cl.isSpace(s[p]) && NoNewline(s, p, |s|)
  }

  lemma {:induction false} LastLineHasTextMeans(cl: Classes, s: string)
    ensures LastLineHasText(cl, s) <==> (exists p: nat :: VisibleAt(cl, s, p))
  {
    if s != [] {
      var front, last := s[..|s| - 1], |s| - 1;
      LastLineHasTextMeans(cl, front);
      forall p: nat | VisibleAt(cl, s, p) && cl.isSpace(s[last]) ensures VisibleAt(cl, front, p) {
      }
      if s[last] != '\n' {
        forall p: nat | VisibleAt(cl, front, p) ensures VisibleAt(cl, s, p) {
        }
        assert !cl.isSpace(s[last]) ==> VisibleAt(cl, s, last);
      }
    }
  }

  lemma InCodeOfToken(cl: Classes, s: string, toks: seq<Token>, k: nat, p: nat)
    requires Tile(cl, s, 0, toks) && k < |toks| && toks[k].start <= p < toks[k].end
    ensures InCode(toks, p) <==> toks[k].kind in {Str, Code}
  {
    forall j | 0 <= j < |toks| && toks[j].start <= p < toks[j].end ensures j == k {
    }
  }

  lemma VisibleInSlice(cl: Classes, s: string, c: nat, d: nat, p: nat)
    requires c <= p < d <= |s|
    ensures VisibleAt(cl, s[c..d], p - c) <==> !cl.isSpace(s[p]) && NoNewline(s, p, d)
  {
    var text := s[c..d];
    assert forall q :: p <= q < d ==> text[q - c] == s[q];
    assert forall q :: p - c <= q < |text| ==> text[q] == s[q + c];
  }

  lemma CodeBefore(cl: Classes, s: string, toks: seq<Token>, c: nat, d: nat, p: nat)
    requires p < c <= d <= |s|
    ensures CodeOnLineAt(cl, s, toks, d, p) <==> CodeOnLineAt(cl, s, toks, c, p) && NoNewline(s, c, d)
  {
  }

  ghost predicate AllCode(toks: seq<Token>, c: nat, d: nat, coded: bool) {
    forall p: nat :: c <= p < d ==> (InCode(toks, p) <==> coded)
  }

  /** A piece of text that is code throughout, or not at all, changes what is on the line so. */
  lemma CodeOver(cl: Classes, s: string, toks: seq<Token>, c: nat, d: nat, coded: bool)
    requires c <= d <= |s| && AllCode(toks, c, d, coded)
    ensures CodeOnLine(cl, s, toks, d) <==>
              || (CodeOnLine(cl, s, toks, c) && NoNewline(s, c, d))
              || (coded && LastLineHasText(cl, s[c..d]))
  {
    LastLineHasTextMeans(cl, s[c..d]);
    if p: nat :| CodeOnLineAt(cl, s, toks, d, p) {
      if p < c {
        CodeBefore(cl, s, toks, c, d, p);
      } else {
        VisibleInSlice(cl, s, c, d, p);
      }
    }
    if p: nat :| CodeOnLineAt(cl, s, toks, c, p) && NoNewline(s, c, d) {
      CodeBefore(cl, s, toks, c, d, p);
    }
    if p: nat :| VisibleAt(cl, s[c..d], p) && coded {
      VisibleInSlice(cl, s, c, d, c + p);
      assert CodeOnLineAt(cl, s, toks, d, c + p);
    }
  }

  /** How the flag changes over one token. */
  lemma CodeStep(cl: Classes, s: string, toks: seq<Token>, k: nat)
    requires Tile(cl, s, 0, toks) && k < |toks|
    ensures CodeOnLine(cl, s, toks, toks[k].end) <==>
              || (CodeOnLine(cl, s, toks, toks[k].start) && NoNewline(s, toks[k].start, toks[k].end))
              || (toks[k].kind in {Str, Code} && LastLineHasText(cl, s[toks[k].start..toks[k].end]))
  {
    forall p: nat | toks[k].start <= p < toks[k].end ensures InCode(toks, p) <==> toks[k].kind in {Str, Code} {
      InCodeOfToken(cl, s, toks, k, p);
    }
    CodeOver(cl, s, toks, toks[k].start, toks[k].end, toks[k].kind in {Str, Code});
  }

  /** What the flag becomes after a string, as the scanner computes it. */
  lemma CodeAfterString(cl: Classes, s: string, toks: seq<Token>, k: nat)
    requires Tile(cl, s, 0, toks) && k < |toks| && toks[k].kind == Str
    ensures NoNewline(s, toks[k].start, toks[k].end) ==> CodeOnLine(cl, s, toks, toks[k].end)
    ensures !NoNewline(s, toks[k].start, toks[k].end) ==>
              (CodeOnLine(cl, s, toks, toks[k].end) <==> LastLineHasText(cl, s[toks[k].start..toks[k].end]))
  {
    CodeStep(cl, s, toks, k);
    var c, d := toks[k].start, toks[k].end;
    if NoNewline(s, c, d) {
      assert Fits(cl, s, toks, k);
      StringStartsVisibly(cl, s, c);
      InCodeOfToken(cl, s, toks, k, c);
      assert CodeOnLineAt(cl, s, toks, d, c);
    }
  }

  lemma StringStartsVisibly(cl: Classes, s: string, start: nat)
    requires start < |s| && NextToken(cl, s, start).kind == Str
    ensures !cl.isSpace(s[start])
  {
    assert StartsWith(s, start, "br") ==> s[start..start + 2][0] == 'b';
    assert StartsWith(s, start, "b\"") ==> s[start..start + 2][0] == 'b';
  }

  lemma OneCharacter(cl: Classes, s: string, c: nat)
    requires c < |s| && s[c] != '\n'
    ensures LastLineHasText(cl, s[c..c + 1]) <==> !cl.isSpace(s[c])
    ensures NoNewline(s, c, c + 1)
  {
    var text := s[c..c + 1];
    assert |text| == 1 && text[0] == s[c] && text[..0] == [];
  }

  lemma CodeIsOneCharacter(cl: Classes, s: string, start: nat)
    requires start < |s| && NextToken(cl, s, start).kind == Code
    ensures NextToken(cl, s, start).end == start + 1 && s[start] != '\n'
  {
  }

  /** What the flag becomes after anything else. */
  lemma CodeAfterOther(cl: Classes, s: string, toks: seq<Token>, k: nat)
    requires Tile(cl, s, 0, toks) && k < |toks| && toks[k].kind != Str
    ensures toks[k].kind != Code ==> (CodeOnLine(cl, s, toks, toks[k].end) <==>
              CodeOnLine(cl, s, toks, toks[k].start) && NoNewline(s, toks[k].start, toks[k].end))
    ensures toks[k].kind == Code ==> (CodeOnLine(cl, s, toks, toks[k].end) <==>
              CodeOnLine(cl, s, toks, toks[k].start) || !cl.isSpace(s[toks[k].start]))
  {
    CodeStep(cl, s, toks, k);
    if toks[k].kind == Code {
      assert Fits(cl, s, toks, k);
      CodeIsOneCharacter(cl, s, toks[k].start);
      OneCharacter(cl, s, toks[k].start);
    }
  }

  // ---------------------------------------------------------------- the scanner

  /** What the scanner knows when `k` tokens are behind the cursor. */
  ghost predicate Seen(cl: Classes, s: string, k: nat, cursor: nat, line: nat, code: bool, findings: seq<Finding>) {
    var toks := Tokens(cl, s, 0);
    && k <= |toks| && cursor == TokenStart(s, toks, k) <= |s|
    && line == 1 + Newlines(s[..cursor])
    && (code <==> CodeOnLine(cl, s, toks, cursor))
    && findings == FindingsOf(cl, s, toks, k)
  }

  lemma SeenNothing(cl: Classes, s: string)
    ensures Seen(cl, s, 0, 0, 1, false, [])
  {
    TokensTile(cl, s, 0);
    assert !CodeOnLine(cl, s, Tokens(cl, s, 0), 0);
  }

  /** Before the end of the text there is a next token, and it is what the text says at the cursor. */
  lemma NextInLine(cl: Classes, s: string, k: nat, cursor: nat, line: nat, code: bool, findings: seq<Finding>)
    requires Seen(cl, s, k, cursor, line, code, findings) && cursor < |s|
    ensures k < |Tokens(cl, s, 0)| && Tokens(cl, s, 0)[k] == NextToken(cl, s, cursor)
  {
    TokensTile(cl, s, 0);
    assert k < |Tokens(cl, s, 0)| ==> Fits(cl, s, Tokens(cl, s, 0), k);
  }

  /** Passing one token. */
  lemma SeenOneMore(cl: Classes, s: string, k: nat, cursor: nat, line: nat, code: bool, findings: seq<Finding>)
    requires Seen(cl, s, k, cursor, line, code, findings) && cursor < |s|
    ensures var t := NextToken(cl, s, cursor);
            Seen(cl, s, k + 1, t.end, line + Newlines(s[cursor..t.end]), CodeOnLine(cl, s, Tokens(cl, s, 0), t.end),
                 findings + FindingOf(cl, s, Tokens(cl, s, 0), t))
  {
    NextInLine(cl, s, k, cursor, line, code, findings);
    TokensTile(cl, s, 0);
    assert Fits(cl, s, Tokens(cl, s, 0), k);
    LinesAdvance(s, cursor, NextToken(cl, s, cursor).end);
  }

  lemma NewlineInSlice(s: string, from: nat, to: nat)
    requires from <= to <= |s|
    ensures NoNewline(s, from, to) <==> '\n' !in s[from..to]
  {
    assert forall q :: from <= q < to ==> s[q] == s[from..to][q - from];
  }

  lemma SeenString(cl: Classes, s: string, k: nat, cursor: nat, line: nat, code: bool, findings: seq<Finding>,
                   end: nat)
    requires Seen(cl, s, k, cursor, line, code, findings) && cursor < |s|
    requires Some(end) == if RawEnd(cl, s, cursor).Some? then RawEnd(cl, s, cursor) else QuotedEnd(cl, s, cursor)
    ensures cursor < end <= |s|
    ensures var segment := s[cursor..end];
            Seen(cl, s, k + 1, end, line + Newlines(segment),
                 if '\n' in segment then LastLineHasText(cl, segment) else true, findings)
  {
    assert NextToken(cl, s, cursor) == Token(cursor, end, Str);
    SeenOneMore(cl, s, k, cursor, line, code, findings);
    NextInLine(cl, s, k, cursor, line, code, findings);
    TokensTile(cl, s, 0);
    CodeAfterString(cl, s, Tokens(cl, s, 0), k);
    NewlineInSlice(s, cursor, end);
  }

  lemma CodeAfterComment(cl: Classes, s: string, k: nat, cursor: nat, line: nat, code: bool, findings: seq<Finding>)
    requires Seen(cl, s, k, cursor, line, code, findings) && cursor < |s|
    requires NextToken(cl, s, cursor).kind !in {Str, Code, Newline}
    ensures var end := NextToken(cl, s, cursor).end;
            CodeOnLine(cl, s, Tokens(cl, s, 0), end) <==> code && NoNewline(s, cursor, end)
  {
    NextInLine(cl, s, k, cursor, line, code, findings);
    TokensTile(cl, s, 0);
    CodeAfterOther(cl, s, Tokens(cl, s, 0), k);
  }

  lemma FindingSeen(cl: Classes, s: string, k: nat, cursor: nat, line: nat, code: bool, findings: seq<Finding>)
    requires Seen(cl, s, k, cursor, line, code, findings) && cursor < |s|
    ensures var t := NextToken(cl, s, cursor);
            FindingOf(cl, s, Tokens(cl, s, 0), t) == CommentFinding(t.kind, line, code)
  {
  }

  lemma SameSeen(cl: Classes, s: string, k: nat, cursor: nat, line: nat, code: bool, findings: seq<Finding>,
                 code': bool, findings': seq<Finding>)
    requires Seen(cl, s, k, cursor, line, code, findings) && code == code' && findings == findings'
    ensures Seen(cl, s, k, cursor, line, code', findings')
  {
  }

  lemma SeenComment(cl: Classes, s: string, k: nat, cursor: nat, line: nat, code: bool, findings: seq<Finding>)
    requires Seen(cl, s, k, cursor, line, code, findings) && cursor < |s|
    requires NextToken(cl, s, cursor).kind !in {Str, Code, Newline}
    ensures var t := NextToken(cl, s, cursor);
            var segment := s[cursor..t.end];
            Seen(cl, s, k + 1, t.end, line + Newlines(segment), if '\n' in segment then false else code,
                 findings + CommentFinding(t.kind, line, code))
  {
    var t := NextToken(cl, s, cursor);
    var toks, segment := Tokens(cl, s, 0), s[cursor..t.end];
    SeenOneMore(cl, s, k, cursor, line, code, findings);
    CodeAfterComment(cl, s, k, cursor, line, code, findings);
    NewlineInSlice(s, cursor, t.end);
    FindingSeen(cl, s, k, cursor, line, code, findings);
    SameSeen(cl, s, k + 1, t.end, line + Newlines(segment), CodeOnLine(cl, s, toks, t.end),
             findings + FindingOf(cl, s, toks, t), if '\n' in segment then false else code,
             findings + CommentFinding(t.kind, line, code));
  }

  predicate NoString(cl: Classes, s: string, cursor: nat)
    requires cursor < |s|
  {
    RawEnd(cl, s, cursor).None? && QuotedEnd(cl, s, cursor).None?
  }

  /** A line comment ends before the line does. */
  lemma SeenLineComment(cl: Classes, s: string, k: nat, cursor: nat, line: nat, code: bool, findings: seq<Finding>)
    requires Seen(cl, s, k, cursor, line, code, findings) && cursor < |s|
    requires NoString(cl, s, cursor) && StartsWith(s, cursor, "//")
    ensures cursor < LineEnd(s, cursor) <= |s|
    ensures Seen(cl, s, k + 1, LineEnd(s, cursor), line, code,
                 if StartsWith(s, cursor, "///") || StartsWith(s, cursor, "//!") then findings
                 else findings + [if code then EndOfLine(line) else NonDocLine(line)])
  {
    SeenComment(cl, s, k, cursor, line, code, findings);
    LineEndBounds(s, cursor);
    NewlineInSlice(s, cursor, LineEnd(s, cursor));
    NoNewlinesIsNone(s[cursor..LineEnd(s, cursor)]);
    assert findings + [] == findings;
  }

  lemma SeenBlockComment(cl: Classes, s: string, k: nat, cursor: nat, line: nat, code: bool, findings: seq<Finding>)
    requires Seen(cl, s, k, cursor, line, code, findings) && cursor < |s|
    requires NoString(cl, s, cursor) && StartsWith(s, cursor, "/*")
    ensures cursor < BlockEnd(s, cursor) <= |s|
    ensures var segment := s[cursor..BlockEnd(s, cursor)];
            Seen(cl, s, k + 1, BlockEnd(s, cursor), line + Newlines(segment), if '\n' in segment then false else code,
                 if StartsWith(s, cursor, "/**") || StartsWith(s, cursor, "/*!") then findings
                 else findings + [Block(line)])
  {
    BlockIsNoLine(s, cursor);
    SeenComment(cl, s, k, cursor, line, code, findings);
    assert findings + [] == findings;
  }

  lemma BlockIsNoLine(s: string, cursor: nat)
    requires StartsWith(s, cursor, "/*")
    ensures !StartsWith(s, cursor, "//")
  {
    assert s[cursor..cursor + 2][1] == '*';
  }

  lemma OneCharacterLines(s: string, c: nat)
    requires c < |s|
    ensures Newlines(s[c..c + 1]) == if s[c] == '\n' then 1 else 0
    ensures NoNewline(s, c, c + 1) <==> s[c] != '\n'
  {
    var text := s[c..c + 1];
    assert |text| == 1 && text[0] == s[c] && text[..0] == [];
    NoNewlinesIsNone(text);
  }

  lemma SeenCharacter(cl: Classes, s: string, k: nat, cursor: nat, line: nat, code: bool, findings: seq<Finding>)
    requires Seen(cl, s, k, cursor, line, code, findings) && cursor < |s|
    requires NoString(cl, s, cursor) && !StartsWith(s, cursor, "//") && !StartsWith(s, cursor, "/*")
    ensures s[cursor] == '\n' ==> Seen(cl, s, k + 1, cursor + 1, line + 1, false, findings)
    ensures s[cursor] != '\n' ==> Seen(cl, s, k + 1, cursor + 1, line, code || !cl.isSpace(s[cursor]), findings)
  {
    assert NextToken(cl, s, cursor) == Token(cursor, cursor + 1, if s[cursor] == '\n' then Newline else Code);
    SeenOneMore(cl, s, k, cursor, line, code, findings);
    NextInLine(cl, s, k, cursor, line, code, findings);
    TokensTile(cl, s, 0);
    CodeAfterOther(cl, s, Tokens(cl, s, 0), k);
    OneCharacterLines(s, cursor);
    assert findings + [] == findings;
  }

  lemma SeenEverything(cl: Classes, s: string, k: nat, cursor: nat, line: nat, code: bool, findings: seq<Finding>)
    requires Seen(cl, s, k, cursor, line, code, findings) && cursor == |s|
    ensures k == |Tokens(cl, s, 0)|
  {
    TokensTile(cl, s, 0);
  }

  /** Where the scanner stands. */
  datatype Scan = Scan(cursor: nat, line: nat, codeOnLine: bool, findings: seq<Finding>)

  ghost predicate SeenScan(cl: Classes, s: string, k: nat, at: Scan) {
    Seen(cl, s, k, at.cursor, at.line, at.codeOnLine, at.findings)
  }

  /** The scanner reports exactly what the tokens of the text call for: every comment that is not
  documentation, in order, with its line and with whether code precedes it on that line. */
  method ForbiddenComments(cl: Classes, s: string) returns (findings: seq<Finding>)
    ensures findings == FindingsOf(cl, s, Tokens(cl, s, 0), |Tokens(cl, s, 0)|)
  {
    ghost var k: nat := 0;
    var at := Scan(0, 1, false, []);
    SeenNothing(cl, s);
    while at.cursor < |s|
      invariant at.cursor <= |s| && SeenScan(cl, s, k, at)
      decreases |s| - at.cursor
    {
      var stringEnd := RawStringEnd(cl, s, at.cursor);
      if stringEnd.None? {
        stringEnd := QuotedStringEnd(cl, s, at.cursor);
      }
      if stringEnd.Some? {
        at := PassString(cl, s, k, at, stringEnd.value);
      } else if StartsWith(s, at.cursor, "//") {
        at := PassLineComment(cl, s, k, at);
      } else {
        at := PassOther(cl, s, k, at);
      }
      k := k + 1;
    }
    SeenEverything(cl, s, k, at.cursor, at.line, at.codeOnLine, at.findings);
    findings := at.findings;
  }

  method PassString(cl: Classes, s: string, ghost k: nat, at: Scan, end: nat) returns (next: Scan)
    requires SeenScan(cl, s, k, at) && at.cursor < |s|
    requires var raw := RawEnd(cl, s, at.cursor);
             Some(end) == if raw.Some? then raw else QuotedEnd(cl, s, at.cursor)
    ensures SeenScan(cl, s, k + 1, next) && at.cursor < next.cursor <= |s|
  {
    SeenString(cl, s, k, at.cursor, at.line, at.codeOnLine, at.findings, end);
    var segment := s[at.cursor..end];
    var code := if '\n' in segment then LastLineHasText(cl, segment) else true;
    next := Scan(end, at.line + Newlines(segment), code, at.findings);
  }

  /** Without a newline after it the comment is the last token, and the loop ends. */
  method PassLineComment(cl: Classes, s: string, ghost k: nat, at: Scan) returns (next: Scan)
    requires SeenScan(cl, s, k, at) && at.cursor < |s|
    requires NoString(cl, s, at.cursor) && StartsWith(s, at.cursor, "//")
    ensures SeenScan(cl, s, k + 1, next) && at.cursor < next.cursor <= |s|
  {
    SeenLineComment(cl, s, k, at.cursor, at.line, at.codeOnLine, at.findings);
    var isDoc := StartsWith(s, at.cursor, "///") || StartsWith(s, at.cursor, "//!");
    next := at;
    if !isDoc {
      next := at.(findings := at.findings + [if at.codeOnLine then EndOfLine(at.line) else NonDocLine(at.line)]);
    }
    var end := Find(s, "\n", at.cursor + 2);
    next := next.(cursor := if end.None? then |s| else end.value);
  }

  method PassOther(cl: Classes, s: string, ghost k: nat, at: Scan) returns (next: Scan)
    requires SeenScan(cl, s, k, at) && at.cursor < |s|
    requires NoString(cl, s, at.cursor) && !StartsWith(s, at.cursor, "//")
    ensures SeenScan(cl, s, k + 1, next) && at.cursor < next.cursor <= |s|
  {
    if StartsWith(s, at.cursor, "/*") {
      SeenBlockComment(cl, s, k, at.cursor, at.line, at.codeOnLine, at.findings);
      var isDoc := StartsWith(s, at.cursor, "/**") || StartsWith(s, at.cursor, "/*!");
      var end := BlockCommentEnd(s, at.cursor);
      var segment := s[at.cursor..end];
      next := Scan(end, at.line + Newlines(segment), if '\n' in segment then false else at.codeOnLine,
                   if isDoc then at.findings else at.findings + [Block(at.line)]);
    } else {
      SeenCharacter(cl, s, k, at.cursor, at.line, at.codeOnLine, at.findings);
      var character := s[at.cursor];
      next := at.(cursor := at.cursor + 1);
      if character == '\n' {
        next := next.(line := at.line + 1, codeOnLine := false);
      } else if !cl.isSpace(character) {
        next := next.(codeOnLine := true);
      }
    }
  }

  /** No finding starts inside a recognised string: the start of a reported comment lies in no string token. */
  lemma FindingsAreOutsideStrings(cl: Classes, s: string, comment: nat, text: nat)
    requires comment < |Tokens(cl, s, 0)| && text < |Tokens(cl, s, 0)|
    requires FindingOf(cl, s, Tokens(cl, s, 0), Tokens(cl, s, 0)[comment]) != []
    requires Tokens(cl, s, 0)[text].kind == Str
    ensures var at := Tokens(cl, s, 0)[comment].start;
            at < Tokens(cl, s, 0)[text].start || Tokens(cl, s, 0)[text].end <= at
  {
    TokensTile(cl, s, 0);
  }
}
