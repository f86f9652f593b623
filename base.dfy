/** Shared vocabulary of both coordinator generations: optional values,
    results, connection identifiers and the few JavaScript string operations
    (truthiness, template rendering, `split(sep)[0]`) the handlers rely on. */
module Base {

  datatype Option<+T> = None | Some(value: T)

  datatype Result<+T, +E> = Success(value: T) | Failure(error: E)

  /** The identifier the transport gives each connection (`socket.id`). */
  type SocketId = string

  /** Looking a key up in a parsed query string or a header table. */
  function Get(m: map<string, string>, k: string): (r: Option<string>)
    ensures r.Some? <==> k in m
    ensures r.Some? ==> r.value == m[k]
  {
    if k in m then Some(m[k]) else None
  }

  /** JavaScript truthiness of a value that is either absent or a string:
      `undefined` and the empty string are falsy. */
  predicate TruthyString(o: Option<string>)
  {
    o.Some? && o.value != ""
  }

  /** How a template literal renders an optional string: an absent value
      prints as "undefined". */
  function Show(o: Option<string>): string
  {
    if o.Some? then o.value else "undefined"
  }

  predicate NoDuplicates<T(==)>(s: seq<T>)
  {
    forall i, j :: 0 <= i < j < |s| ==> s[i] != s[j]
  }

  /** `s.split(sep)[0]`: the text of `s` before its first `sep`, or all of
      `s` when it holds none. */
  function FirstField(s: string, sep: char): (r: string)
    ensures r <= s
    ensures sep !in r
    ensures |r| < |s| ==> s[|r|] == sep
  {
    if |s| == 0 || s[0] == sep then "" else [s[0]] + FirstField(s[1..], sep)
  }

  /** The first field is the whole text up to a separator that follows it. */
  lemma FirstFieldBeforeSeparator(field: string, sep: char, rest: string)
    requires sep !in field
    ensures FirstField(field + [sep] + rest, sep) == field
  {
    var s := field + [sep] + rest;
    var r := FirstField(s, sep);
    assert forall k :: 0 <= k < |field| ==> s[k] == field[k];
    assert forall k :: 0 <= k < |r| ==> r[k] == s[k];
    assert s[|field|] == sep;
    assert |r| == |field|;
    assert r == s[..|r|] == field;
  }
}
