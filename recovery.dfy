/** `safeJson`: tolerant recovery of a JSON value from a model's free-text reply
    (src/llm/langGraphFlow.js:98-106). `JSON.parse` itself is a parameter. */
module JsonRecovery {
  import opened Wrappers
  import opened Json
  import opened Text

  /** `JSON.parse`: `None` when it throws. */
  type Parser = string -> Option<Json>

  /** Index just past the last `c` in `s`, or 0 when there is none. */
  function EndOfLast(s: string, c: char): (k: nat)
    ensures k <= |s| && forall j :: k <= j < |s| ==> s[j] != c
    ensures k > 0 ==> s[k - 1] == c
    decreases |s|
  {
    if s == [] then 0
    else if s[|s| - 1] == c then |s|
    else EndOfLast(s[..|s| - 1], c)
  }

  /** The match of `/\{[\s\S]*\}/`: from the first `{` through the last `}`, provided
      that `}` comes after the `{`. */
  function BraceSpan(s: string): (m: Option<string>)
    ensures m.Some? <==> exists i, j :: 0 <= i < j < |s| && s[i] == '{' && s[j] == '}'
    ensures m.Some? ==>
      var i := IndexOf(s, '{');
      && 2 <= |m.value| && i + |m.value| <= |s|
      && m.value == s[i..i + |m.value|]
      && m.value[0] == '{' && m.value[|m.value| - 1] == '}'
      && (forall j :: 0 <= j < i ==> s[j] != '{')
      && (forall j :: i + |m.value| <= j < |s| ==> s[j] != '}')
  {
    var i, e := IndexOf(s, '{'), EndOfLast(s, '}');
    if i + 1 < e then
      Some(s[i..e])
    else
      None
  }

  /** `safeJson(s)`: an empty reply is `null`; otherwise the strict parse of the whole
      reply, else the parse of its brace span, else `null`. It never throws. */
  function SafeJson(parse: Parser, s: string): (r: Json)
    ensures s == "" ==> r == JNull
    ensures s != "" && parse(s).Some? ==> r == parse(s).value
    ensures r == JNull || parse(s) == Some(r) || (BraceSpan(s).Some? && parse(BraceSpan(s).value) == Some(r))
  {
    if s == "" then JNull
    else
      match parse(s)
      case Some(v) => v
      case None =>
        match BraceSpan(s)
        case None => JNull
        case Some(m) =>
          match parse(m)
          case Some(v) => v
          case None => JNull
  }

  /** A reply that wraps one JSON object in prose without braces yields that object's
      brace span: prose such as "Sure! {...} Hope that helps." is seen through. */
  lemma BraceSpanOfWrapped(pre: string, body: string, post: string)
    requires '{' !in pre && '}' !in post
    requires 2 <= |body| && body[0] == '{' && body[|body| - 1] == '}'
    ensures BraceSpan(pre + body + post) == Some(body)
  {
    var s := pre + body + post;
    var b, e := |pre|, |pre| + |body|;
    assert forall j :: 0 <= j < b ==> s[j] == pre[j];
    assert forall j :: e <= j < |s| ==> s[j] == post[j - e];
    IndexOfAt(s, '{', b);
    EndOfLastAt(s, '}', e);
    assert s[b..e] == body;
  }

  lemma {:induction false} EndOfLastAt(s: string, c: char, k: nat)
    requires 0 < k <= |s| && s[k - 1] == c && forall j :: k <= j < |s| ==> s[j] != c
    ensures EndOfLast(s, c) == k
    decreases |s| - k
  {
    if k < |s| {
      EndOfLastAt(s[..|s| - 1], c, k);
    }
  }

  /** The reply in prose around an object: when the whole reply does not parse, the
      result is the parse of the embedded object, or `null` when that fails too. */
  lemma RecoversWrappedObject(parse: Parser, pre: string, body: string, post: string)
    requires '{' !in pre && '}' !in post
    requires 2 <= |body| && body[0] == '{' && body[|body| - 1] == '}'
    requires parse(pre + body + post).None?
    ensures SafeJson(parse, pre + body + post) == if parse(body).Some? then parse(body).value else JNull
  {
    BraceSpanOfWrapped(pre, body, post);
  }
}
