/**
 * The JSON text the analysis service stores with a topic-classification
 * result, the small keyword parser that reads it back, and the controller's
 * string-value reader.  Both readers work by `indexOf`/`substring`, not by a
 * JSON parser, so their round trips need conditions on the stored values.
 */
module AnalysisJson {
  import opened Text

  const OtherTopic: string := "기타"

  /** The marker the keyword parser looks for; twelve characters long. */
  const KeywordsMarker: string := "\"keywords\":["

  function Quote(k: string): (q: string)
    ensures |q| == |k| + 2 && q[0] == '"' && q[|q| - 1] == '"'
  {
    "\"" + k + "\""
  }

  function QuoteAll(ks: seq<string>): (qs: seq<string>)
    ensures |qs| == |ks|
    ensures forall i :: 0 <= i < |ks| ==> qs[i] == Quote(ks[i])
  {
    seq(|ks|, i requires 0 <= i < |ks| => Quote(ks[i]))
  }

  /** `{"keywords":["k1","k2"]`: the common head of every stored result. */
  function KeywordsHead(ks: seq<string>): string
  {
    "{" + KeywordsMarker + Join(QuoteAll(ks), ",") + "]"
  }

  /** `saveAdvancedAnalysisResult`'s format. */
  function AdvancedJson(ks: seq<string>, topic: string, emotion: string, messageId: int): string
  {
    KeywordsHead(ks) + AdvancedTail(topic, emotion, messageId)
  }

  function AdvancedTail(topic: string, emotion: string, messageId: int): string
  {
    ",\"topic\":\"" + topic + "\",\"emotion\":\"" + emotion + "\",\"messageId\":" + IntToString(messageId) + "}"
  }

  /** `saveLlmAnalysisResult`'s format: the advanced one plus the answer map under `llm_analysis`. */
  function LlmJson(ks: seq<string>, topic: string, emotion: string, messageId: int, answerJson: string): string
  {
    KeywordsHead(ks) + LlmTail(topic, emotion, messageId, answerJson)
  }

  function LlmTail(topic: string, emotion: string, messageId: int, answerJson: string): string
  {
    ",\"topic\":\"" + topic + "\",\"emotion\":\"" + emotion + "\",\"messageId\":" + IntToString(messageId)
      + ",\"llm_analysis\":" + answerJson + "}"
  }

  /** One comma-separated part of the keyword section: trimmed, then every quote removed. */
  function Unquote(part: string): string
  {
    Remove(Trim(part), '"')
  }

  function UnquoteAll(parts: seq<string>): (r: seq<string>)
    ensures |r| == |parts|
    ensures forall i :: 0 <= i < |parts| ==> r[i] == Unquote(parts[i])
  {
    seq(|parts|, i requires 0 <= i < |parts| => Unquote(parts[i]))
  }

  /**
   * What `extractKeywordsFromJson` returns: the non-empty unquoted parts of
   * the text between the marker and the next `]`, or nothing when either is
   * missing.  Java's `split` drops trailing empty parts, which the final
   * filter drops anyway.
   */
  function JsonKeywords(json: string): seq<string>
  {
    var start := IndexOf(json, KeywordsMarker, 0);
    if start == -1 then []
    else
      var end := IndexOf(json, "]", start);
      if end == -1 then []
      else
        MarkerHasNoBracket(json, start, end);
        NonEmpty(UnquoteAll(Split(json[start + |KeywordsMarker|..end], Char(','))))
  }

  /** The first `]` at or after the marker lies after the whole marker. */
  lemma MarkerHasNoBracket(json: string, start: int, end: int)
    requires OccursAt(json, KeywordsMarker, start)
    requires OccursAt(json, "]", end) && start <= end
    ensures start + |KeywordsMarker| <= end
  {
    forall i | start <= i < start + |KeywordsMarker|
      ensures json[i] != ']'
    {
      assert json[i] == json[start..start + |KeywordsMarker|][i - start];
    }
    assert json[end] == json[end..end + 1][0];
  }

  /** `extractKeywordsFromJson`: locate the section, then collect its parts. */
  method ExtractKeywordsFromJson(json: string) returns (keywords: seq<string>)
    ensures keywords == JsonKeywords(json)
  {
    keywords := [];
    var start := IndexOf(json, KeywordsMarker, 0);
    if start == -1 {
      return;
    }
    var end := IndexOf(json, "]", start);
    if end == -1 {
      return;
    }
    MarkerHasNoBracket(json, start, end);
    keywords := CollectKeywords(Split(json[start + |KeywordsMarker|..end], Char(',')));
  }

  /** The loop over the comma-separated parts. */
  method CollectKeywords(parts: seq<string>) returns (keywords: seq<string>)
    ensures keywords == NonEmpty(UnquoteAll(parts))
  {
    keywords := [];
    var i := 0;
    while i < |parts|
      invariant 0 <= i <= |parts|
      invariant keywords == NonEmpty(UnquoteAll(parts[..i]))
    {
      var keyword := Remove(Trim(parts[i]), '"');
      NonEmptySnoc(UnquoteAll(parts[..i]), keyword);
      assert UnquoteAll(parts[..i + 1]) == UnquoteAll(parts[..i]) + [keyword];
      if keyword != [] {
        keywords := keywords + [keyword];
      }
      i := i + 1;
    }
    assert parts[..|parts|] == parts;
  }

  /** Every keyword read back is non-empty and quote-free. */
  lemma JsonKeywordsAreClean(json: string, k: string)
    requires k in JsonKeywords(json)
    ensures k != [] && '"' !in k
  {
    var start := IndexOf(json, KeywordsMarker, 0);
    var end := IndexOf(json, "]", start);
    MarkerHasNoBracket(json, start, end);
    var us := UnquoteAll(Split(json[start + |KeywordsMarker|..end], Char(',')));
    assert JsonKeywords(json) == NonEmpty(us);
    var i :| 0 <= i < |us| && us[i] == k;
    assert k == Remove(Trim(Split(json[start + |KeywordsMarker|..end], Char(','))[i]), '"');
  }

  lemma {:induction false} NonEmptySnoc(fs: seq<seq<char>>, f: seq<char>)
    ensures NonEmpty(fs + [f]) == NonEmpty(fs) + (if f == [] then [] else [f])
  {
    if fs == [] {
      assert [] + [f] == [f];
    } else {
      var head := if fs[0] == [] then [] else [fs[0]];
      var tail := if f == [] then [] else [f];
      assert (fs + [f])[0] == fs[0];
      assert (fs + [f])[1..] == fs[1..] + [f];
      assert NonEmpty(fs + [f]) == head + NonEmpty(fs[1..] + [f]);
      NonEmptySnoc(fs[1..], f);
      assert head + (NonEmpty(fs[1..]) + tail) == (head + NonEmpty(fs[1..])) + tail;
    }
  }

  /** A quoted keyword reads back as itself. */
  lemma UnquoteQuote(k: string)
    requires '"' !in k
    ensures Unquote(Quote(k)) == k
  {
    TrimUntouched(Quote(k));
    RemoveConcat("\"" + k, "\"", '"');
    RemoveConcat("\"", k, '"');
    RemoveAbsent(k, '"');
    assert Remove("\"", '"') == [];
  }

  lemma SliceMiddle(a: string, b: string, c: string)
    ensures (a + b + c)[|a|..|a| + |b|] == b
  {
  }

  /** The first occurrence of a one-character pattern. */
  lemma {:induction false} IndexOfChar(s: string, c: char, from: nat, k: nat)
    requires from <= k < |s| && s[k] == c
    requires forall i :: from <= i < k ==> s[i] != c
    ensures IndexOf(s, [c], from) == k
    decreases k - from
  {
    if from < k {
      assert s[from..from + 1] == [s[from]];
      IndexOfChar(s, c, from + 1, k);
    } else {
      assert s[from..from + 1] == [c];
    }
  }

  /** The keywords a list of keywords is written from. */
  predicate Writable(ks: seq<string>)
  {
    forall k :: k in ks ==> k != [] && '"' !in k && ',' !in k && ']' !in k
  }

  /** The quoted, comma-joined list holds no `]`. */
  lemma BodyHasNoBracket(ks: seq<string>)
    requires Writable(ks)
    ensures ']' !in Join(QuoteAll(ks), ",")
  {
    var qs := QuoteAll(ks);
    forall q | q in qs
      ensures ']' !in q
    {
      var i :| 0 <= i < |qs| && qs[i] == q;
      assert q == "\"" + ks[i] + "\"";
    }
    JoinAvoids(qs, ",", ']');
  }

  /** Splitting the quoted list and unquoting its parts gives the keywords back. */
  lemma BodyRoundTrip(ks: seq<string>)
    requires Writable(ks)
    ensures NonEmpty(UnquoteAll(Split(Join(QuoteAll(ks), ","), Char(',')))) == ks
  {
    var qs := QuoteAll(ks);
    if ks == [] {
      assert Join(qs, ",") == [];
      assert Split([], Char(',')) == [[]];
      assert UnquoteAll([[]]) == [Unquote([])];
    } else {
      forall q | q in qs
        ensures ',' !in q
      {
        var i :| 0 <= i < |qs| && qs[i] == q;
        assert q == "\"" + ks[i] + "\"";
      }
      SplitJoin(qs, ',');
      forall i | 0 <= i < |ks|
        ensures UnquoteAll(qs)[i] == ks[i]
      {
        UnquoteQuote(ks[i]);
      }
      assert UnquoteAll(qs) == ks;
      NonEmptyKeepsAll(ks);
    }
  }

  /** In the head the marker occurs first at position 1 and the first `]` after it closes the list. */
  lemma HeadPositions(ks: seq<string>, rest: string)
    requires Writable(ks)
    ensures IndexOf(KeywordsHead(ks) + rest, KeywordsMarker, 0) == 1
    ensures IndexOf(KeywordsHead(ks) + rest, "]", 1) == 1 + |KeywordsMarker| + |Join(QuoteAll(ks), ",")|
  {
    var body := Join(QuoteAll(ks), ",");
    var json := KeywordsHead(ks) + rest;
    var m := |KeywordsMarker|;
    assert json == "{" + KeywordsMarker + body + "]" + rest;
    assert json[1..1 + m] == KeywordsMarker;
    assert json[0..m] != KeywordsMarker by {
      assert json[0] == '{';
    }
    assert IndexOf(json, KeywordsMarker, 0) == IndexOf(json, KeywordsMarker, 1);
    BodyHasNoBracket(ks);
    forall i | 1 <= i < 1 + m + |body|
      ensures json[i] != ']'
    {
      if i < 1 + m {
        assert json[i] == KeywordsMarker[i - 1];
      } else {
        assert json[i] == body[i - 1 - m];
      }
    }
    IndexOfChar(json, ']', 1, 1 + m + |body|);
  }

  /**
   * Round trip: whatever follows the keyword head, the parser returns the
   * keywords written into it, provided none is empty or holds a quote, a
   * comma or a closing bracket.
   */
  lemma KeywordsHeadRoundTrip(ks: seq<string>, rest: string)
    requires Writable(ks)
    ensures JsonKeywords(KeywordsHead(ks) + rest) == ks
  {
    var body := Join(QuoteAll(ks), ",");
    var json := KeywordsHead(ks) + rest;
    var m := |KeywordsMarker|;
    HeadPositions(ks, rest);
    assert json == ("{" + KeywordsMarker) + body + ("]" + rest);
    SliceMiddle("{" + KeywordsMarker, body, "]" + rest);
    BodyRoundTrip(ks);
  }

  /** The advanced format reads back its keywords. */
  lemma AdvancedJsonKeywords(ks: seq<string>, topic: string, emotion: string, messageId: int)
    requires Writable(ks)
    ensures JsonKeywords(AdvancedJson(ks, topic, emotion, messageId)) == ks
  {
    KeywordsHeadRoundTrip(ks, AdvancedTail(topic, emotion, messageId));
  }

  /** So does the format that carries the answer map. */
  lemma LlmJsonKeywords(ks: seq<string>, topic: string, emotion: string, messageId: int, answerJson: string)
    requires Writable(ks)
    ensures JsonKeywords(LlmJson(ks, topic, emotion, messageId, answerJson)) == ks
  {
    KeywordsHeadRoundTrip(ks, LlmTail(topic, emotion, messageId, answerJson));
  }

  /** The text that introduces a string value: `"key":"`. */
  function ValuePattern(key: string): string
  {
    "\"" + key + "\":\""
  }

  /**
   * The controller's `extractJsonValue`: the text between the first
   * `"key":"` and the next quote, or 기타 when either is missing.
   */
  function ExtractJsonValue(json: string, key: string): (value: string)
    ensures IndexOf(json, ValuePattern(key), 0) == -1 ==> value == OtherTopic
    ensures '"' !in value || value == OtherTopic
  {
    var pattern := ValuePattern(key);
    var start := IndexOf(json, pattern, 0);
    if start == -1 then OtherTopic
    else
      var from := start + |pattern|;
      var end := IndexOf(json, "\"", from);
      if end == -1 then OtherTopic
      else
        assert forall i :: from <= i < end ==> json[i] != '"' by {
          forall i | from <= i < end ensures json[i] != '"' {
            assert !OccursAt(json, "\"", i);
            assert json[i..i + 1] == [json[i]];
          }
        }
        json[from..end]
  }

  /**
   * Round trip: when the pattern first occurs right after `prefix`, the
   * reader returns the value written there, if that value holds no quote.
   */
  lemma ExtractJsonValueRoundTrip(prefix: string, key: string, v: string, rest: string)
    requires IndexOf(prefix + ValuePattern(key) + v + "\"" + rest, ValuePattern(key), 0) == |prefix|
    requires '"' !in v
    ensures ExtractJsonValue(prefix + ValuePattern(key) + v + "\"" + rest, key) == v
  {
    var pattern := ValuePattern(key);
    var json := prefix + pattern + v + "\"" + rest;
    var from := |prefix| + |pattern|;
    assert json[from..from + |v|] == v;
    forall i | from <= i < from + |v|
      ensures json[i] != '"'
    {
      assert json[i] == v[i - from];
    }
    assert json[from + |v|] == '"';
    IndexOfChar(json, '"', from, from + |v|);
  }

  /** Without a closing quote after the pattern the reader also falls back to 기타. */
  lemma ExtractJsonValueUnclosed(json: string, key: string)
    requires IndexOf(json, ValuePattern(key), 0) != -1
    requires '"' !in json[IndexOf(json, ValuePattern(key), 0) + |ValuePattern(key)|..]
    ensures ExtractJsonValue(json, key) == OtherTopic
  {
    var start := IndexOf(json, ValuePattern(key), 0);
    NoCharNoIndex(json, '"', start + |ValuePattern(key)|);
  }

  /** A character that does not occur from `from` on is not found from there. */
  lemma {:induction false} NoCharNoIndex(s: string, c: char, from: nat)
    requires from <= |s| && c !in s[from..]
    ensures IndexOf(s, [c], from) == -1
    decreases |s| - from
  {
    if from < |s| {
      assert s[from] == s[from..][0];
      assert s[from..from + 1] == [s[from]];
      assert s[from + 1..] == s[from..][1..];
      NoCharNoIndex(s, c, from + 1);
    }
  }
}
