/**
 * Turning the backend's answer into the assistant's message: which JSON field
 * is read, the fallback text, the `(Chunk…)` stripping and the error message
 * (`handleSendMessage`, components/ChatInterface.tsx).
 */
module Reply {
  import opened Wrappers
  import opened Text
  import opened Request

  /** A field of the decoded JSON body: absent, a string, or some other JSON value and its truthiness. */
  datatype JsonValue = Missing | JString(s: string) | Other(truthy: bool)

  /**
   * How the request ended: `fetch` or `response.json()` failed (a `null` body,
   * whose fields cannot be read, counts here too), or a body was decoded.
   */
  datatype Outcome = Failed | Received(message: JsonValue, answer: JsonValue)

  const Fallback: string := "No response received"
  const ErrorText: string := "Error: Could not send message. Please try again."
  const ChunkOpen: string := "(Chunk"

  /** `!value` in JavaScript. */
  predicate Falsy(v: JsonValue) {
    match v
    case Missing => true
    case JString(s) => s == []
    case Other(truthy) => !truthy
  }

  /** A whole match of the regular expression `\(Chunk[^)]*\)`. */
  predicate IsChunk(m: string) {
    && |m| >= |ChunkOpen| + 1
    && m[..|ChunkOpen|] == ChunkOpen
    && m[|m| - 1] == ')'
    && forall i :: |ChunkOpen| <= i < |m| - 1 ==> m[i] != ')'
  }

  /** A match at the head of `s` ends at the first `)` after `(Chunk`. */
  lemma ChunkEndsAtClose(s: string, n: nat)
    requires n <= |s| && IsChunk(s[..n])
    ensures StartsWith(s, ChunkOpen)
    ensures OccursAt(s[6..], ")", n - 7)
    ensures forall i :: 0 <= i < n - 7 ==> !OccursAt(s[6..], ")", i)
  {
    assert s[..n][..6] == s[..6];
    assert s[6..][n - 7..n - 6] == [s[..n][n - 1]];
    forall i | 0 <= i < n - 7 ensures !OccursAt(s[6..], ")", i) {
      assert s[6..][i..i + 1] == [s[..n][i + 6]];
    }
  }

  /** A one-character pattern occurs exactly where that character is. */
  lemma OccursSingle(t: string, c: char, i: int)
    ensures OccursAt(t, [c], i) <==> 0 <= i < |t| && t[i] == c
  {
    if 0 <= i < |t| {
      assert t[i..i + 1][0] == t[i];
    }
  }

  /** Up to the first `)` after a leading `(Chunk` is a match. */
  lemma ChunkUpToClose(s: string, k: nat)
    requires StartsWith(s, ChunkOpen) && IndexOf(s[6..], ")") == Some(k)
    ensures 7 + k <= |s| && IsChunk(s[..7 + k])
  {
    var t := s[6..];
    OccursSingle(t, ')', k);
    var m := s[..7 + k];
    assert m[..6] == s[..6];
    assert m[6 + k] == t[k];
    forall i | 6 <= i < 6 + k ensures m[i] != ')' {
      OccursSingle(t, ')', i - 6);
      assert m[i] == t[i - 6];
    }
  }

  /** The length of the match of `\(Chunk[^)]*\)` that starts at the head of `s`, if there is one. */
  function ChunkAt(s: string): (r: Option<nat>)
    ensures r.Some? ==> r.value <= |s| && IsChunk(s[..r.value])
    ensures forall n :: 0 <= n <= |s| && IsChunk(s[..n]) ==> r == Some(n)
  {
    if StartsWith(s, ChunkOpen) then
      var k := IndexOf(s[6..], ")");
      assert forall n :: 0 <= n <= |s| && IsChunk(s[..n]) ==> k == Some(n - 7) by {
        forall n | 0 <= n <= |s| && IsChunk(s[..n]) ensures k == Some(n - 7) {
          ChunkEndsAtClose(s, n);
        }
      }
      if k.None? then None
      else
        ChunkUpToClose(s, k.value);
        Some(7 + k.value)
    else
      assert forall n :: 0 <= n <= |s| && IsChunk(s[..n]) ==> false by {
        forall n | 0 <= n <= |s| && IsChunk(s[..n]) ensures false {
          ChunkEndsAtClose(s, n);
        }
      }
      None
  }

  /**
   * `s.replace(/\(Chunk[^)]*\)/g, '')`: scanning left to right, each match is
   * dropped and the scan resumes after it; the output is not rescanned.
   */
  function StripChunks(s: string): (r: string)
    ensures |r| <= |s|
    decreases |s|
  {
    if s == [] then []
    else
      match ChunkAt(s)
      case Some(n) => StripChunks(s[n..])
      case None => [s[0]] + StripChunks(s[1..])
  }

  /** No match starts at a character other than `(`. */
  lemma NoChunkWithoutOpen(s: string)
    requires s != [] && s[0] != '('
    ensures ChunkAt(s).None?
  {
    assert !StartsWith(s, ChunkOpen);
  }

  /** Where no match starts, the first character is kept and the scan moves on by one. */
  lemma StripKeepsHead(s: string)
    requires s != [] && ChunkAt(s).None?
    ensures StripChunks(s) == [s[0]] + StripChunks(s[1..])
  {
  }

  /** One step of the scan over a character other than `(`. */
  lemma StripPlainStep(p: string, s: string)
    requires p != [] && p[0] != '('
    ensures StripChunks(p + s) == [p[0]] + StripChunks(p[1..] + s)
  {
    var t := p + s;
    assert t[0] == p[0] && t[1..] == p[1..] + s;
    NoChunkWithoutOpen(t);
    StripKeepsHead(t);
  }

  /** A text whose head is followed by the rest of `p` and then `y` is `p + y`. */
  lemma ConsJoin(p: string, y: string, x: string, z: string)
    requires p != []
    requires x == [p[0]] + z && z == p[1..] + y
    ensures x == p + y
  {
    assert [p[0]] + p[1..] == p;
  }

  /** Text before the first `(` passes through untouched. */
  lemma {:induction false} StripPlainPrefix(p: string, s: string)
    requires forall i :: 0 <= i < |p| ==> p[i] != '('
    ensures StripChunks(p + s) == p + StripChunks(s)
  {
    if p == [] {
      assert p + s == s;
    } else {
      StripPlainStep(p, s);
      StripPlainPrefix(p[1..], s);
      ConsJoin(p, StripChunks(s), StripChunks(p + s), StripChunks(p[1..] + s));
    }
  }

  /** A match at the head is dropped whole, and the scan goes on after it. */
  lemma StripChunkPrefix(m: string, s: string)
    requires IsChunk(m)
    ensures StripChunks(m + s) == StripChunks(s)
  {
    var t := m + s;
    assert t[..|m|] == m;
    assert ChunkAt(t) == Some(|m|);
    assert t[|m|..] == s;
  }

  /** A text in which `(Chunk` never occurs is left as it is. */
  lemma {:induction false} StripWithoutChunk(s: string)
    requires !Contains(s, ChunkOpen)
    ensures StripChunks(s) == s
  {
    if s != [] {
      assert !OccursAt(s, ChunkOpen, 0);
      assert !Contains(s[1..], ChunkOpen) by {
        forall i | 0 <= i <= |s[1..]| ensures !OccursAt(s[1..], ChunkOpen, i) {
          if OccursAt(s[1..], ChunkOpen, i) {
            assert s[1..][i..i + 6] == s[i + 1..i + 7];
            assert OccursAt(s, ChunkOpen, i + 1);
          }
        }
      }
      StripWithoutChunk(s[1..]);
      assert [s[0]] + s[1..] == s;
    }
  }

  /** `(Chunk` with no `)` after it is not a match, and such text is left as it is. */
  lemma {:induction false} StripWithoutClose(s: string)
    requires forall i :: 0 <= i < |s| ==> s[i] != ')'
    ensures StripChunks(s) == s
  {
    if s != [] {
      StripWithoutClose(s[1..]);
      assert [s[0]] + s[1..] == s;
    }
  }

  /** `responseText.replace(/\(Chunk[^)]*\)/g, '').trim()` */
  function Clean(s: string): (r: string)
    ensures |r| <= |s|
    ensures r == [] || (!IsSpace(r[0]) && !IsSpace(r[|r| - 1]))
  {
    Trim(StripChunks(s))
  }

  /** The fallback text has no whitespace at either end. */
  lemma FallbackUnpadded()
    ensures !IsSpace(Fallback[0]) && !IsSpace(Fallback[|Fallback| - 1])
  {
    assert Fallback[0] == 'N' && |Fallback| == 20 && Fallback[19] == 'd';
  }

  /**
   * The text of the assistant's reply, or None where the handler throws: the
   * request failed, or the chosen field is truthy but not a string, so that
   * `.replace` is not a function on it. A falsy field gives the fallback
   * text as it is, since cleaning leaves that text unchanged (`CleanFallback`).
   */
  function ReplyText(mode: Mode, outcome: Outcome): (r: Option<string>)
    ensures r.None? <==> (outcome.Failed?
      || (var v := if mode == Input then outcome.message else outcome.answer; v.Other? && v.truthy))
    ensures r.Some? ==> r.value == [] || (!IsSpace(r.value[0]) && !IsSpace(r.value[|r.value| - 1]))
  {
    match outcome
    case Failed => None
    case Received(message, answer) =>
      var v := if mode == Input then message else answer;
      if Falsy(v) then
        FallbackUnpadded();
        Some(Fallback)
      else if v.JString? then Some(Clean(v.s))
      else None
  }

  /** The text of the one assistant message that ends an accepted send. */
  function AssistantText(mode: Mode, outcome: Outcome): string {
    match ReplyText(mode, outcome)
    case None => ErrorText
    case Some(t) => t
  }

  /** The assistant's text is the error text or a reply with no whitespace at either end. */
  lemma AssistantTextUnpadded(mode: Mode, outcome: Outcome)
    ensures var r := AssistantText(mode, outcome);
      r == ErrorText || r == [] || (!IsSpace(r[0]) && !IsSpace(r[|r| - 1]))
  {
    match ReplyText(mode, outcome)
    case None =>
    case Some(t) =>
  }

  /** A failed request is reported with the fixed error text. */
  lemma FailureReply(mode: Mode)
    ensures AssistantText(mode, Failed) == ErrorText
  {
  }

  /**
   * An input send reads `message` and any other send reads `answer`; a falsy
   * field gives the fallback text, a truthy non-string the error text.
   */
  lemma ReplyField(mode: Mode, message: JsonValue, answer: JsonValue)
    ensures var v := if mode == Input then message else answer;
      && (Falsy(v) ==> AssistantText(mode, Received(message, answer)) == Fallback)
      && (v.Other? && v.truthy ==> AssistantText(mode, Received(message, answer)) == ErrorText)
      && (v.JString? && v.s != [] ==> AssistantText(mode, Received(message, answer)) == Clean(v.s))
  {
  }

  /** Text without `(` and without whitespace at either end comes out of `Clean` unchanged. */
  lemma CleanOfPlain(p: string)
    requires forall i :: 0 <= i < |p| ==> p[i] != '('
    requires p != [] && !IsSpace(p[0]) && !IsSpace(p[|p| - 1])
    ensures Clean(p) == p
  {
    StripPlainPrefix(p, []);
    assert p + [] == p;
    TrimOfUnpadded(p);
  }

  lemma CleanFallback()
    ensures Clean(Fallback) == Fallback
  {
    CleanOfPlain(Fallback);
  }

  /** The field that is not read for the mode has no effect on the reply. */
  lemma ReplyIgnoresOtherField(mode: Mode, message: JsonValue, answer: JsonValue, other: JsonValue)
    ensures mode == Input ==> AssistantText(mode, Received(message, answer)) == AssistantText(mode, Received(message, other))
    ensures mode != Input ==> AssistantText(mode, Received(message, answer)) == AssistantText(mode, Received(other, answer))
  {
  }

  /** A reply in which `(Chunk` never occurs is only trimmed. */
  lemma CleanWithoutChunk(s: string)
    requires !Contains(s, ChunkOpen)
    ensures Clean(s) == Trim(s)
  {
    StripWithoutChunk(s);
  }

  /** A match between two texts without `(` is cut out; the texts are joined as they are. */
  lemma StripBetween(a: string, m: string, b: string)
    requires IsChunk(m)
    requires forall i :: 0 <= i < |a| ==> a[i] != '('
    requires forall i :: 0 <= i < |b| ==> b[i] != '('
    ensures StripChunks(a + m + b) == a + b
  {
    assert a + m + b == a + (m + b);
    StripPlainPrefix(a, m + b);
    StripChunkPrefix(m, b);
    StripPlainPrefix(b, []);
    assert b + [] == b;
  }

  /**
   * "Result (Chunk 1/2) more" comes out as "Result  more": the chunk goes, and
   * the spaces on either side of it stay, since `trim` only touches the ends.
   */
  lemma CleanExample()
    ensures Clean("Result " + "(Chunk 1/2)" + " more") == "Result " + " more"
  {
    var a, m, b := "Result ", "(Chunk 1/2)", " more";
    StripBetween(a, m, b);
    TrimOfUnpadded(a + b);
  }

  /** No match starts at a `(` that is followed by another `(`. */
  lemma NoChunkAtDoubleParen(s: string)
    requires |s| >= 2 && s[0] == '(' && s[1] == '('
    ensures ChunkAt(s).None?
  {
  }

  /** `(Chunk`, text without parentheses, `)` is a match. */
  lemma ChunkOfInner(inner: string)
    requires forall i :: 0 <= i < |inner| ==> inner[i] != '(' && inner[i] != ')'
    ensures IsChunk("(Chunk" + inner + ")")
  {
    var out := "(Chunk" + inner + ")";
    assert out[..6] == ChunkOpen;
    forall i | 6 <= i < |out| - 1 ensures out[i] != ')' {
      assert out[i] == inner[i - 6];
    }
  }

  /** A `(` that starts no match is kept, and the scan goes on at the next character. */
  lemma StripUnmatchedOpen(t: string)
    requires ChunkAt("(" + t).None?
    ensures StripChunks("(" + t) == "(" + StripChunks(t)
  {
    StripKeepsHead("(" + t);
    assert ("(" + t)[1..] == t;
  }

  /** A `(` directly before another `(` is kept, and the scan goes on at the second. */
  lemma OpenBeforeOpen(t: string)
    requires t != [] && t[0] == '('
    ensures StripChunks("(" + t) == "(" + StripChunks(t)
  {
    var s := "(" + t;
    assert s[1] == t[0];
    NoChunkAtDoubleParen(s);
    StripUnmatchedOpen(t);
  }

  /** In "(" + a match + text without `(`, only the match goes. */
  lemma StripAfterOpen(m: string, b: string)
    requires IsChunk(m)
    requires forall i :: 0 <= i < |b| ==> b[i] != '('
    ensures StripChunks("(" + m + b) == "(" + b
  {
    assert m[0] == '(';
    assert "(" + m + b == "(" + (m + b);
    OpenBeforeOpen(m + b);
    StripChunkPrefix(m, b);
    StripPlainPrefix(b, []);
    assert b + [] == b;
  }

  /** A text that is one match strips to nothing. */
  lemma StripChunkAlone(c: string)
    requires IsChunk(c)
    ensures StripChunks(c) == []
  {
    StripBetween([], c, []);
    assert [] + c + [] == c;
  }

  /**
   * The scan does not look again at what it kept. Put a match `m` just after
   * the `(` of another match `c`: the first `(` is kept and `m` goes, so the
   * output is `c`, itself a match that a second pass would remove:
   * "((Chunk)Chunk)" strips to "(Chunk)".
   */
  lemma StripIsSinglePass(m: string, c: string)
    requires IsChunk(m) && IsChunk(c)
    requires forall i :: 1 <= i < |c| ==> c[i] != '('
    ensures StripChunks("(" + m + c[1..]) == c
    ensures StripChunks(StripChunks("(" + m + c[1..])) == []
  {
    assert c[0] == c[..6][0] == '(';
    var b := c[1..];
    assert forall i :: 0 <= i < |b| ==> b[i] != '(' by {
      forall i | 0 <= i < |b| ensures b[i] != '(' {
        assert b[i] == c[i + 1];
      }
    }
    StripAfterOpen(m, b);
    assert "(" + b == c;
    StripChunkAlone(c);
  }

  /** A reply that is nothing but a chunk shows as an empty assistant message. */
  lemma ChunkOnlyReplyIsEmpty(mode: Mode, m: string, other: JsonValue)
    requires IsChunk(m)
    ensures var outcome := if mode == Input then Received(JString(m), other) else Received(other, JString(m));
      AssistantText(mode, outcome) == []
  {
    StripChunkAlone(m);
  }
}
