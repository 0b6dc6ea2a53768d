/** The structured-output extractor: turns a model's free-form reply into one
    JSON record, first by a strict parse of the whole reply, then by parsing the
    span that the greedy, newline-crossing pattern `\{.*\}` selects. */
module Extractor {
  import opened JsonValue

  /** The two ways extraction fails: no `{ ... }` span at all ("No valid JSON
      object found"), or a span the parser rejects (its error propagates). */
  datatype ExtractError = NoObjectFound | SpanNotParsable

  /** Index of the first occurrence of `c` in `s`. */
  function FirstIndexOf(s: string, c: char): (r: Option<nat>)
    ensures r.Some? ==> r.value < |s| && s[r.value] == c
    ensures r.Some? ==> forall i :: 0 <= i < r.value ==> s[i] != c
    ensures r.None? ==> forall i :: 0 <= i < |s| ==> s[i] != c
  {
    if |s| == 0 then None
    else if s[0] == c then Some(0)
    else match FirstIndexOf(s[1..], c)
      case None => None
      case Some(i) => Some(i + 1)
  }

  /** Index of the last occurrence of `c` in `s`. */
  function LastIndexOf(s: string, c: char): (r: Option<nat>)
    ensures r.Some? ==> r.value < |s| && s[r.value] == c
    ensures r.Some? ==> forall i :: r.value < i < |s| ==> s[i] != c
    ensures r.None? ==> forall i :: 0 <= i < |s| ==> s[i] != c
  {
    if |s| == 0 then None
    else if s[|s| - 1] == c then Some(|s| - 1)
    else LastIndexOf(s[..|s| - 1], c)
  }

  /** `s[a..b]` is a match of `\{.*\}` with DOTALL: it opens with `{` and closes
      with a later `}`, whatever lies between. */
  ghost predicate BraceMatch(s: string, a: int, b: int)
  {
    0 <= a && a + 2 <= b <= |s| && s[a] == '{' && s[b - 1] == '}'
  }

  /** The match a regular-expression search reports: the leftmost start, and at
      that start the longest match (the `.*` is greedy). */
  ghost predicate GreedySpan(s: string, a: int, b: int)
  {
    BraceMatch(s, a, b) &&
    forall a', b' :: BraceMatch(s, a', b') ==> a < a' || (a == a' && b' <= b)
  }

  lemma GreedySpanUnique(s: string, a: int, b: int, a': int, b': int)
    requires GreedySpan(s, a, b) && GreedySpan(s, a', b')
    ensures a == a' && b == b'
  {
    assert BraceMatch(s, a', b');
    assert BraceMatch(s, a, b);
  }

  /** The span `JSON_OBJ_RE.search` finds. */
  function BraceSpan(s: string): Option<(nat, nat)>
  {
    match FirstIndexOf(s, '{')
    case None => None
    case Some(a) =>
      match LastIndexOf(s, '}')
      case None => None
      case Some(k) => if a < k then Some((a, k + 1)) else None
  }

  /** The span runs from the first `{` to the last `}`, inclusive, and exists
      exactly when some `}` follows a `{`; it is the leftmost-longest match. */
  lemma BraceSpanIsGreedy(s: string)
    ensures BraceSpan(s).Some? ==> GreedySpan(s, BraceSpan(s).value.0, BraceSpan(s).value.1)
    ensures BraceSpan(s).Some? ==> forall i :: 0 <= i < BraceSpan(s).value.0 ==> s[i] != '{'
    ensures BraceSpan(s).Some? ==> forall i :: BraceSpan(s).value.1 <= i < |s| ==> s[i] != '}'
    ensures BraceSpan(s).None? <==> forall a, b :: !BraceMatch(s, a, b)
  {
  }

  /** Tier 1 accepts the strict parse of the whole reply only when it is an object. */
  predicate WholeIsObject(text: string, parse: string -> Option<Json>)
  {
    parse(text).Some? && parse(text).value.Obj?
  }

  /** `extract_json`: the strict parse of the whole reply if that is an object,
      otherwise the parse of the `{ ... }` span. */
  function ExtractJson(text: string, parse: string -> Option<Json>): Result<Json, ExtractError>
  {
    if WholeIsObject(text, parse) then Success(parse(text).value)
    else
      match BraceSpan(text)
      case None => Failure(NoObjectFound)
      case Some((a, b)) =>
        match parse(text[a..b])
        case Some(v) => Success(v)
        case None => Failure(SpanNotParsable)
  }

  /** The two tiers in order: a whole reply that parses as an object is returned
      as it is; otherwise extraction fails with NoObjectFound exactly when no
      `{ ... }` match exists, and else returns the parse of the match a regular
      expression search reports, or fails with SpanNotParsable: no third attempt. */
  lemma ExtractTiers(text: string, parse: string -> Option<Json>)
    ensures WholeIsObject(text, parse) ==> ExtractJson(text, parse) == Success(parse(text).value)
    ensures !WholeIsObject(text, parse) ==>
              (ExtractJson(text, parse) == Failure(NoObjectFound) <==> forall a, b :: !BraceMatch(text, a, b))
    ensures !WholeIsObject(text, parse) ==>
              forall a, b :: GreedySpan(text, a, b) ==>
                ExtractJson(text, parse) == match parse(text[a..b])
                                            case Some(v) => Success(v)
                                            case None => Failure(SpanNotParsable)
  {
    BraceSpanIsGreedy(text);
    var span := BraceSpan(text);
    if span.Some? {
      forall a, b | GreedySpan(text, a, b)
        ensures a == span.value.0 && b == span.value.1
      {
        GreedySpanUnique(text, a, b, span.value.0, span.value.1);
      }
    }
  }

  /** A record serialised on its own comes back unchanged. */
  lemma ExtractRoundTrip(codec: Codec, v: Json)
    requires v.Obj? && codec.parse(codec.serialize(v)) == Some(v)
    ensures ExtractJson(codec.serialize(v), codec.parse) == Success(v)
  {
  }

  /** Prose before and after a record is tolerated: with no `{` in the prefix and
      no `}` in the suffix, the embedded record is what comes back (unless the
      whole reply already parses as an object, which then must be that record). */
  lemma {:induction false} ExtractTolerance(prefix: string, body: string, suffix: string, parse: string -> Option<Json>, v: Json)
    requires forall i :: 0 <= i < |prefix| ==> prefix[i] != '{'
    requires forall i :: 0 <= i < |suffix| ==> suffix[i] != '}'
    requires |body| >= 2 && body[0] == '{' && body[|body| - 1] == '}'
    requires parse(body) == Some(v)
    requires WholeIsObject(prefix + body + suffix, parse) ==> parse(prefix + body + suffix) == Some(v)
    ensures ExtractJson(prefix + body + suffix, parse) == Success(v)
  {
    var text := prefix + body + suffix;
    ExtractTiers(text, parse);
    var a, b := |prefix|, |prefix| + |body|;
    assert text[a..b] == body;
    assert BraceMatch(text, a, b) by {
      assert text[a] == body[0];
      assert text[b - 1] == body[|body| - 1];
    }
    assert GreedySpan(text, a, b);
  }

  /** What every conforming JSON parser also guarantees: the text of an object
      holds its opening `{` and, later, its closing `}`. */
  ghost predicate ObjectsAreBraced(parse: string -> Option<Json>)
  {
    forall s: string :: WholeIsObject(s, parse) ==> exists a, b :: BraceMatch(s, a, b)
  }

  /** Reply text with no `{` followed by a `}` (plain prose, or prose with a
      stray `{`) never yields a record: extraction fails with NoObjectFound. */
  lemma ExtractProseFails(text: string, parse: string -> Option<Json>)
    requires ObjectsAreBraced(parse)
    requires forall a, b :: !BraceMatch(text, a, b)
    ensures ExtractJson(text, parse) == Failure(NoObjectFound)
  {
    ExtractTiers(text, parse);
  }

  /** With a conforming parser, whatever the extractor returns is an object. */
  lemma ExtractYieldsObject(text: string, parse: string -> Option<Json>)
    requires SaneParser(parse)
    requires ExtractJson(text, parse).Success?
    ensures ExtractJson(text, parse).value.Obj?
  {
    if !WholeIsObject(text, parse) {
      ExtractTiers(text, parse);
      var span := BraceSpan(text);
      assert span.Some?;
      var (a, b) := span.value;
      assert text[a..b][0] == '{';
    }
  }
}
