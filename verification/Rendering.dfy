/** The prompt block as text: flattening a memory to one line, joining lines, and the
    byte length that bounds any tokenizer (`context/composer.py`,
    `context/tokens.py`). */
module Rendering {
  import opened Common

  const BLOCK_HEADER := "## What you know about the user"
  const NEWLINE: char := '\n'

  // ---- words ------------------------------------------------------------------------

  /** Length of the leading run of non-space characters. */
  function WordEnd(s: string): (n: nat)
    ensures n <= |s| && (forall i :: 0 <= i < n ==> !IsSpace(s[i])) && (n < |s| ==> IsSpace(s[n]))
  {
    if s == "" || IsSpace(s[0]) then 0 else 1 + WordEnd(s[1..])
  }

  /** `str.split()`: the maximal runs of non-space characters. */
  function Words(s: string): seq<string>
    decreases |s|
  {
    if s == "" then []
    else if IsSpace(s[0]) then Words(s[1..])
    else [s[..WordEnd(s)]] + Words(s[WordEnd(s)..])
  }

  predicate IsWord(w: string) {
    w != "" && forall i :: 0 <= i < |w| ==> !IsSpace(w[i])
  }

  /** `sep.join(parts)`. */
  function Join(sep: char, parts: seq<string>): string {
    if parts == [] then ""
    else if |parts| == 1 then parts[0]
    else parts[0] + [sep] + Join(sep, parts[1..])
  }

  /** One line per memory, whatever its text. */
  function Clean(content: string): string {
    Join(' ', Words(content))
  }

  lemma {:induction false} WordsAreWords(s: string)
    ensures forall w :: w in Words(s) ==> IsWord(w)
    decreases |s|
  {
    if s != "" {
      if IsSpace(s[0]) {
        WordsAreWords(s[1..]);
      } else {
        WordsAreWords(s[WordEnd(s)..]);
      }
    }
  }

  lemma {:induction false} WordsOfWord(w: string, rest: string)
    requires IsWord(w) && (rest == "" || IsSpace(rest[0]))
    ensures Words(w + rest) == [w] + Words(rest)
  {
    var s := w + rest;
    WordEndAt(s, |w|);
    assert s[..|w|] == w && s[|w|..] == rest;
  }

  lemma {:induction false} WordEndAt(s: string, n: nat)
    requires n <= |s| && (forall i :: 0 <= i < n ==> !IsSpace(s[i])) && (n < |s| ==> IsSpace(s[n]))
    ensures WordEnd(s) == n
  {
    if s != "" && !IsSpace(s[0]) {
      WordEndAt(s[1..], n - 1);
    }
  }

  /** Joining words with spaces and splitting again gives the words back. */
  lemma {:induction false} WordsOfJoin(words: seq<string>)
    requires forall k :: 0 <= k < |words| ==> IsWord(words[k])
    ensures Words(Join(' ', words)) == words
  {
    if words != [] {
      var w := words[0];
      var rest := if |words| == 1 then "" else [' '] + Join(' ', words[1..]);
      assert Join(' ', words) == w + rest;
      WordsOfWord(w, rest);
      if |words| > 1 {
        WordsOfJoin(words[1..]);
        assert rest[1..] == Join(' ', words[1..]);
      }
      assert words == [w] + words[1..];
    }
  }

  /** Flattening loses no word, adds none, and is idempotent. */
  lemma CleanKeepsEveryWord(content: string)
    ensures Words(Clean(content)) == Words(content)
    ensures Clean(Clean(content)) == Clean(content)
  {
    WordsAreWords(content);
    WordsOfJoin(Words(content));
  }

  lemma {:induction false} JoinAvoids(words: seq<string>, c: char)
    requires c != ' ' && forall k :: 0 <= k < |words| ==> c !in words[k]
    ensures c !in Join(' ', words)
  {
    if |words| > 1 {
      JoinAvoids(words[1..], c);
    }
  }

  /** Whatever a memory contains, its line never breaks. */
  lemma CleanIsOneLine(content: string)
    ensures forall c :: c in Clean(content) && IsSpace(c) ==> c == ' '
  {
    WordsAreWords(content);
    forall c | c in Clean(content) && IsSpace(c) ensures c == ' ' {
      if c != ' ' {
        forall k | 0 <= k < |Words(content)| ensures c !in Words(content)[k] {
          assert IsWord(Words(content)[k]);
        }
        JoinAvoids(Words(content), c);
      }
    }
  }

  /** Blank exactly when there is no word in it. */
  lemma BlankMeansNoWords(content: string)
    ensures Clean(content) == "" <==> Words(content) == []
    ensures Words(content) == [] <==> forall i :: 0 <= i < |content| ==> IsSpace(content[i])
  {
    WordsAreWords(content);
    CleanKeepsEveryWord(content);
    NoWords(content);
  }

  lemma {:induction false} NoWords(s: string)
    ensures Words(s) == [] <==> forall i :: 0 <= i < |s| ==> IsSpace(s[i])
    decreases |s|
  {
    if s != "" && IsSpace(s[0]) {
      NoWords(s[1..]);
      assert forall i :: 1 <= i < |s| ==> s[i] == s[1..][i - 1];
    }
  }

  // ---- lines --------------------------------------------------------------------------

  function RenderLine(content: string): string {
    "- " + Clean(content)
  }

  function RenderLines(contents: seq<string>): seq<string> {
    seq(|contents|, k requires 0 <= k < |contents| => RenderLine(contents[k]))
  }

  function RenderBlock(contents: seq<string>): string {
    if contents == [] then "" else Join(NEWLINE, [BLOCK_HEADER] + RenderLines(contents))
  }

  /** `block.split("\n")`. */
  function Split(sep: char, s: string): (parts: seq<string>)
    ensures parts != []
  {
    if s == "" then [""]
    else
      var rest := Split(sep, s[1..]);
      if s[0] == sep then [""] + rest else [[s[0]] + rest[0]] + rest[1..]
  }

  lemma {:induction false} SplitOne(sep: char, part: string)
    requires sep !in part
    ensures Split(sep, part) == [part]
  {
    if part != "" {
      SplitOne(sep, part[1..]);
      assert part == [part[0]] + part[1..];
    }
  }

  lemma {:induction false} SplitFirst(sep: char, part: string, rest: string)
    requires sep !in part
    ensures Split(sep, part + [sep] + rest) == [part] + Split(sep, rest)
  {
    var s := part + [sep] + rest;
    if part == "" {
      assert s[1..] == rest;
    } else {
      assert s[1..] == part[1..] + [sep] + rest;
      SplitFirst(sep, part[1..], rest);
      assert part == [part[0]] + part[1..];
    }
  }

  lemma {:induction false} SplitOfJoin(sep: char, parts: seq<string>)
    requires parts != [] && forall k :: 0 <= k < |parts| ==> sep !in parts[k]
    ensures Split(sep, Join(sep, parts)) == parts
  {
    if |parts| == 1 {
      SplitOne(sep, parts[0]);
    } else {
      SplitOfJoin(sep, parts[1..]);
      SplitFirst(sep, parts[0], Join(sep, parts[1..]));
      assert parts == [parts[0]] + parts[1..];
    }
  }

  /** Splitting the block gives back the header and exactly one whole line per memory,
      each holding that memory's words in order. */
  lemma BlockRoundTrip(contents: seq<string>)
    requires contents != []
    ensures Split(NEWLINE, RenderBlock(contents)) == [BLOCK_HEADER] + RenderLines(contents)
    ensures forall k :: 0 <= k < |contents| ==> Words(RenderLines(contents)[k]) == ["-"] + Words(contents[k])
  {
    var lines := [BLOCK_HEADER] + RenderLines(contents);
    forall k | 0 <= k < |lines| ensures NEWLINE !in lines[k] {
      if 0 < k {
        CleanIsOneLine(contents[k - 1]);
      }
    }
    SplitOfJoin(NEWLINE, lines);
    forall k | 0 <= k < |contents| ensures Words(RenderLines(contents)[k]) == ["-"] + Words(contents[k]) {
      LineWords(contents[k]);
    }
  }

  /** A line is a dash and the memory's words. */
  lemma LineWords(content: string)
    ensures Words(RenderLine(content)) == ["-"] + Words(content)
  {
    var rest := " " + Clean(content);
    CleanKeepsEveryWord(content);
    WordsOfWord("-", rest);
    assert rest[1..] == Clean(content);
    assert "-" + rest == RenderLine(content);
  }

  // ---- bytes and tokens ------------------------------------------------------------------

  type Byte = n: nat | n < 256

  /** UTF-8, section 3 of RFC 3629. */
  function EncodeChar(c: char): seq<Byte> {
    var n := c as int;
    if n < 0x80 then [n]
    else if n < 0x800 then [0xC0 + n / 0x40, 0x80 + n % 0x40]
    else if n < 0x10000 then [0xE0 + n / 0x1000, 0x80 + n / 0x40 % 0x40, 0x80 + n % 0x40]
    else [0xF0 + n / 0x40000, 0x80 + n / 0x1000 % 0x40, 0x80 + n / 0x40 % 0x40, 0x80 + n % 0x40]
  }

  function Encode(s: string): seq<Byte> {
    if s == "" then [] else EncodeChar(s[0]) + Encode(s[1..])
  }

  function EstimateTokens(text: string): nat {
    |Encode(text)|
  }

  function Bytes(tokens: seq<seq<Byte>>): seq<Byte> {
    if tokens == [] then [] else tokens[0] + Bytes(tokens[1..])
  }

  /** Every token decodes to at least one byte, and together they are the text. */
  predicate Covers(tokens: seq<seq<Byte>>, text: string) {
    (forall k :: 0 <= k < |tokens| ==> tokens[k] != []) && Bytes(tokens) == Encode(text)
  }

  lemma {:induction false} TokensFitBytes(tokens: seq<seq<Byte>>)
    requires forall k :: 0 <= k < |tokens| ==> tokens[k] != []
    ensures |tokens| <= |Bytes(tokens)|
  {
    if tokens != [] {
      TokensFitBytes(tokens[1..]);
    }
  }

  /** The estimate never under-counts, for any script and any such encoding; and no
      smaller count would do, since one byte per token attains it. */
  lemma EstimateIsTheBestBound(text: string, tokens: seq<seq<Byte>>)
    ensures Covers(tokens, text) ==> |tokens| <= EstimateTokens(text)
    ensures exists ts :: Covers(ts, text) && |ts| == EstimateTokens(text)
  {
    if Covers(tokens, text) {
      TokensFitBytes(tokens);
    }
    var bytes := Encode(text);
    var ts := Singles(bytes);
    SinglesCover(bytes);
    assert Covers(ts, text);
  }

  function Singles(bytes: seq<Byte>): (ts: seq<seq<Byte>>)
    ensures |ts| == |bytes| && forall k :: 0 <= k < |ts| ==> ts[k] == [bytes[k]]
  {
    seq(|bytes|, k requires 0 <= k < |bytes| => [bytes[k]])
  }

  lemma {:induction false} SinglesCover(bytes: seq<Byte>)
    ensures Bytes(Singles(bytes)) == bytes
  {
    if bytes != [] {
      assert Singles(bytes)[1..] == Singles(bytes[1..]);
      SinglesCover(bytes[1..]);
    }
  }

  lemma {:induction false} EncodeJoins(a: string, b: string)
    ensures Encode(a + b) == Encode(a) + Encode(b)
  {
    if a == "" {
      assert a + b == b;
    } else {
      assert (a + b)[1..] == a[1..] + b;
      EncodeJoins(a[1..], b);
    }
  }
}
