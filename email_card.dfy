/**
 * The logic of client/src/components/EmailCard.jsx: how a released drag is
 * classified against the fixed threshold, how the body text is cleaned of
 * markup and shortened for display, and the fallbacks shown for a draft with
 * no recipient, subject or body.
 */
module EmailCard {
  import opened Builtins
  import Server

  /** The direction handed to the queue's `onSwipe`. */
  datatype Direction = Right | Left

  /** What `handleDragEnd` does with a released card. */
  datatype Release = SwipeRight | SwipeLeft | ReturnToCentre

  /** Horizontal distance, in pixels, a card must pass to commit. */
  const Threshold: real := 100.0

  // ---------------------------------------------------------------------------
  // Gesture classification
  // ---------------------------------------------------------------------------

  /**
   * `handleDragEnd`: strictly past +100 sends, strictly past -100 flags,
   * anything in [-100, 100] springs back; exactly one of the three happens.
   */
  function ClassifyRelease(offset: real): (r: Release)
    ensures r == SwipeRight <==> offset > 100.0
    ensures r == SwipeLeft <==> offset < -100.0
    ensures r == ReturnToCentre <==> -100.0 <= offset <= 100.0
  {
    if offset > Threshold then SwipeRight
    else if offset < -Threshold then SwipeLeft
    else ReturnToCentre
  }

  /** `drag={!disabled ? "x" : false}`: a disabled card cannot be dragged. */
  predicate Draggable(disabled: bool) {
    !disabled
  }

  /**
   * The swipe a drag reports to the queue: none when the card is disabled
   * (there is no drag to release) or when the release springs back.
   */
  function DragSwipe(disabled: bool, offset: real): (d: Option<Direction>)
    ensures d == Some(Right) <==> Draggable(disabled) && offset > 100.0
    ensures d == Some(Left) <==> Draggable(disabled) && offset < -100.0
    ensures d.None? <==> disabled || -100.0 <= offset <= 100.0
  {
    if !Draggable(disabled) then None
    else
      match ClassifyRelease(offset)
      case SwipeRight => Some(Right)
      case SwipeLeft => Some(Left)
      case ReturnToCentre => None
  }

  // ---------------------------------------------------------------------------
  // Markup stripping: `body.replace(/<[^>]*>/g, '')`
  // ---------------------------------------------------------------------------

  /**
   * The regular expression scans left to right. At a '<' followed somewhere
   * later by a '>', it deletes everything up to and including the first such
   * '>'; a '<' with no later '>' is kept and the scan moves on.
   */
  function StripTags(s: string): string
    decreases |s|
  {
    if s == [] then []
    else if s[0] == '<' then
      match FindIndex(s, (c: char) => c == '>')
      case Some(k) => StripTags(s[k + 1..])
      case None => [s[0]] + StripTags(s[1..])
    else [s[0]] + StripTags(s[1..])
  }

  /** No '<' is followed, anywhere later, by a '>': nothing the regular expression could match. */
  ghost predicate TagFree(s: string) {
    forall i, j :: 0 <= i < j < |s| && s[i] == '<' ==> s[j] != '>'
  }

  /** `a` is `b` with some characters deleted. */
  ghost predicate SubsequenceOf(a: string, b: string)
    decreases |b|
  {
    if b == [] then a == []
    else (a != [] && a[0] == b[0] && SubsequenceOf(a[1..], b[1..])) || SubsequenceOf(a, b[1..])
  }

  lemma {:induction false} SubsequenceOfSuffix(a: string, b: string, m: nat)
    requires m <= |b| && SubsequenceOf(a, b[m..])
    ensures SubsequenceOf(a, b)
    decreases m
  {
    if m > 0 {
      assert b[1..][m - 1..] == b[m..];
      SubsequenceOfSuffix(a, b[1..], m - 1);
    }
  }

  /** A subsequence uses no character its source lacks. */
  lemma {:induction false} SubsequenceChars(a: string, b: string)
    requires SubsequenceOf(a, b)
    ensures forall c :: c in a ==> c in b
    decreases |b|
  {
    if b != [] {
      if a != [] && a[0] == b[0] && SubsequenceOf(a[1..], b[1..]) {
        SubsequenceChars(a[1..], b[1..]);
        forall c | c in a ensures c in b {
          if c != a[0] {
            assert a == [a[0]] + a[1..];
            assert c in a[1..];
            assert c in b[1..];
          }
        }
      } else {
        SubsequenceChars(a, b[1..]);
      }
    }
  }

  /** Stripping only deletes characters. */
  lemma {:induction false} StripOnlyDeletes(s: string)
    ensures SubsequenceOf(StripTags(s), s)
    decreases |s|
  {
    if s != [] {
      var close := FindIndex(s, (c: char) => c == '>');
      if s[0] == '<' && close.Some? {
        StripOnlyDeletes(s[close.value + 1..]);
        SubsequenceOfSuffix(StripTags(s), s, close.value + 1);
      } else {
        StripOnlyDeletes(s[1..]);
        var r := StripTags(s);
        assert r == [s[0]] + StripTags(s[1..]);
        assert r[1..] == StripTags(s[1..]);
      }
    }
  }

  /** Putting a character in front keeps text tag-free unless it opens a tag that a later '>' closes. */
  lemma TagFreeCons(c: char, t: string)
    requires TagFree(t)
    requires c == '<' ==> '>' !in t
    ensures TagFree([c] + t)
  {
    var r := [c] + t;
    forall i, j | 0 <= i < j < |r| && r[i] == '<' ensures r[j] != '>' {
      assert r[j] == t[j - 1];
      if i > 0 {
        assert r[i] == t[i - 1];
      } else {
        assert t[j - 1] in t;
      }
    }
  }

  /** After stripping, nothing is left for the regular expression to match. */
  lemma {:induction false} StripLeavesNoTag(s: string)
    ensures TagFree(StripTags(s))
    decreases |s|
  {
    if s != [] {
      var close := FindIndex(s, (c: char) => c == '>');
      if s[0] == '<' && close.Some? {
        StripLeavesNoTag(s[close.value + 1..]);
      } else {
        var rest := StripTags(s[1..]);
        StripLeavesNoTag(s[1..]);
        if s[0] == '<' {
          StripOnlyDeletes(s[1..]);
          SubsequenceChars(rest, s[1..]);
          assert '>' !in s[1..] by {
            forall k | 0 <= k < |s| - 1 ensures s[1..][k] != '>' {
              assert s[1..][k] == s[k + 1];
            }
          }
        }
        TagFreeCons(s[0], rest);
      }
    }
  }

  /** Text with nothing to match comes through unchanged. */
  lemma {:induction false} StripKeepsTagFree(s: string)
    requires TagFree(s)
    ensures StripTags(s) == s
    decreases |s|
  {
    if s != [] {
      if s[0] == '<' {
        assert FindIndex(s, (c: char) => c == '>').None?;
      }
      assert TagFree(s[1..]);
      StripKeepsTagFree(s[1..]);
    }
  }

  /** In a '<', a middle without '>', then '>', the first '>' is the one after the middle. */
  lemma FirstClose(m: string, b: string)
    requires '>' !in m
    ensures FindIndex(['<'] + m + ['>'] + b, (c: char) => c == '>') == Some(|m| + 1)
  {
    var s := ['<'] + m + ['>'] + b;
    assert s[|m| + 1] == '>';
    forall j | 0 <= j < |m| + 1 ensures s[j] != '>' {
      if j > 0 {
        assert s[j] == m[j - 1];
      }
    }
  }

  /** A character other than '<' is kept and the scan moves on. */
  lemma StripKeepsPlainHead(c: char, t: string)
    requires c != '<'
    ensures StripTags([c] + t) == [c] + StripTags(t)
  {
    assert ([c] + t)[1..] == t;
  }

  /** A '<' whose first later '>' sits at `k` deletes everything through `k`. */
  lemma StripDropsTag(s: string, k: nat)
    requires s != [] && s[0] == '<'
    requires FindIndex(s, (c: char) => c == '>') == Some(k)
    ensures StripTags(s) == StripTags(s[k + 1..])
  {
  }

  /**
   * A tag ends at the first '>' after its '<': text before the first '<' is
   * kept, the span from that '<' through the first later '>' is deleted, and
   * the scan resumes right after it.
   */
  lemma {:induction false} StripFirstTag(a: string, m: string, b: string)
    requires '<' !in a && '>' !in m
    ensures StripTags(a + ['<'] + m + ['>'] + b) == a + StripTags(b)
    decreases |a|
  {
    if a == [] {
      var s := ['<'] + m + ['>'] + b;
      assert a + ['<'] + m + ['>'] + b == s;
      FirstClose(m, b);
      StripDropsTag(s, |m| + 1);
      assert s[|m| + 2..] == b;
    } else {
      var t := a[1..] + ['<'] + m + ['>'] + b;
      assert a + ['<'] + m + ['>'] + b == [a[0]] + t;
      assert a[0] in a;
      StripKeepsPlainHead(a[0], t);
      StripFirstTag(a[1..], m, b);
      assert a == [a[0]] + a[1..];
    }
  }

  /** Stripping twice is stripping once. */
  lemma StripIdempotent(s: string)
    ensures StripTags(StripTags(s)) == StripTags(s)
  {
    StripLeavesNoTag(s);
    StripKeepsTagFree(StripTags(s));
  }

  /** Text without '<' is left unchanged. */
  lemma StripWithoutOpenAngle(s: string)
    requires '<' !in s
    ensures StripTags(s) == s
  {
    StripKeepsTagFree(s);
  }

  // ---------------------------------------------------------------------------
  // formatBody and the display fallbacks
  // ---------------------------------------------------------------------------

  /** Longest stripped body shown before it is cut. */
  const MaxBodyLength := 500

  /** `formatBody`: strip markup, then cut to 500 characters and mark the cut with "...". */
  function FormatBody(body: string): string {
    var stripped := StripTags(body);
    if |stripped| > MaxBodyLength then stripped[..MaxBodyLength] + "..." else stripped
  }

  /**
   * The shape of a formatted body: a stripped text of at most 500 characters
   * is shown whole; a longer one is shown as its first 500 characters and
   * "...", exactly 503 characters. Either way the output starts with the
   * stripped text's first min(500, length) characters and has no markup left.
   */
  lemma FormatBodyShape(body: string)
    ensures var t, r := StripTags(body), FormatBody(body);
      && |r| <= MaxBodyLength + 3
      && (|t| <= MaxBodyLength ==> r == t)
      && (|t| > MaxBodyLength ==> |r| == MaxBodyLength + 3 && r[..MaxBodyLength] == t[..MaxBodyLength] &&
                                  r[MaxBodyLength..] == "...")
      && (var n := if |t| < MaxBodyLength then |t| else MaxBodyLength; r[..n] == t[..n])
      && TagFree(r)
  {
    var t, r := StripTags(body), FormatBody(body);
    StripLeavesNoTag(body);
    if |t| > MaxBodyLength {
      forall i, j | 0 <= i < j < |r| && r[i] == '<' ensures r[j] != '>' {
        if j < MaxBodyLength {
          assert r[i] == t[i] && r[j] == t[j];
        } else {
          assert r[j] == '.';
        }
      }
    }
  }

  /** Formatting an already formatted body changes nothing. */
  lemma FormatBodyIdempotent(body: string)
    ensures FormatBody(FormatBody(body)) == FormatBody(body)
  {
    var r := FormatBody(body);
    FormatBodyShape(body);
    StripKeepsTagFree(r);
    if |StripTags(body)| > MaxBodyLength {
      assert r[..MaxBodyLength] + "..." == r;
    }
  }

  /** `draft.to || 'No recipient'` */
  function ShownRecipient(d: Server.DraftRecord): (r: string)
    ensures r != ""
    ensures d.to != "" ==> r == d.to
    ensures d.to == "" ==> r == "No recipient"
  {
    Or(d.to, "No recipient")
  }

  /** `draft.subject || '(No subject)'` */
  function ShownSubject(d: Server.DraftRecord): (r: string)
    ensures r != ""
    ensures d.subject != "" ==> r == d.subject
    ensures d.subject == "" ==> r == "(No subject)"
  {
    Or(d.subject, "(No subject)")
  }

  /** `formatBody(draft.body || draft.snippet || 'No content')` */
  function ShownBody(d: Server.DraftRecord): string {
    FormatBody(Or(Or(d.body, d.snippet), "No content"))
  }

  /** An empty body falls back to the snippet, and an empty snippet to "No content". */
  lemma ShownBodyFallbacks(d: Server.DraftRecord)
    ensures d.body != "" ==> ShownBody(d) == FormatBody(d.body)
    ensures d.body == "" && d.snippet != "" ==> ShownBody(d) == FormatBody(d.snippet)
    ensures d.body == "" && d.snippet == "" ==> ShownBody(d) == "No content"
  {
    StripWithoutOpenAngle("No content");
  }
}
