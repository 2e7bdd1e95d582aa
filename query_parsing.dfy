/**
 * A reference reading of a URL query string, used to state what the request's query
 * means: fields are separated by `&`, a field's name ends at its first `=`, and a
 * name that occurs more than once is read from its first field. No percent-decoding
 * is done, matching a query that was never percent-encoded.
 */
module QueryParsing {
  import opened Wrappers

  /** Joins pieces with `sep` between consecutive ones. */
  function Join(pieces: seq<string>, sep: char): string
  {
    if pieces == [] then ""
    else if |pieces| == 1 then pieces[0]
    else pieces[0] + [sep] + Join(pieces[1..], sep)
  }

  /** Cuts `s` at every `sep`, giving at least one piece. */
  function Split(s: string, sep: char): (pieces: seq<string>)
    ensures |pieces| >= 1
  {
    if s == [] then [""]
    else
      var rest := Split(s[1..], sep);
      if s[0] == sep then [""] + rest
      else [[s[0]] + rest[0]] + rest[1..]
  }

  /** No piece of a split contains the separator, and joining the pieces gives the string back. */
  lemma {:induction false} SplitJoin(s: string, sep: char)
    ensures forall k :: 0 <= k < |Split(s, sep)| ==> sep !in Split(s, sep)[k]
    ensures Join(Split(s, sep), sep) == s
  {
    if s != [] {
      SplitJoin(s[1..], sep);
      var rest := Split(s[1..], sep);
      if s[0] != sep {
        assert Split(s, sep) == [[s[0]] + rest[0]] + rest[1..];
        if |rest| > 1 {
          assert Join(rest, sep) == rest[0] + [sep] + Join(rest[1..], sep);
        }
      }
    }
  }

  /** Cuts `s` at its first `c`, or gives `None` when `c` does not occur. */
  function SplitAtFirst(s: string, c: char): (r: Option<(string, string)>)
    ensures r.None? <==> c !in s
    ensures r.Some? ==> s == r.value.0 + [c] + r.value.1 && c !in r.value.0
  {
    if s == [] then None
    else if s[0] == c then Some(([], s[1..]))
    else match SplitAtFirst(s[1..], c)
      case None => None
      case Some(kv) => Some(([s[0]] + kv.0, kv.1))
  }

  /** The value of the first field named `name`; a field without `=` has no value. */
  function Lookup(fields: seq<string>, name: string): Option<string>
  {
    if fields == [] then None
    else match SplitAtFirst(fields[0], '=')
      case Some(kv) => if kv.0 == name then Some(kv.1) else Lookup(fields[1..], name)
      case None => Lookup(fields[1..], name)
  }

  /** The value of the last field named `name`, for readers where a repeated name's last field wins. */
  function LookupLast(fields: seq<string>, name: string): Option<string>
  {
    if fields == [] then None
    else match SplitAtFirst(fields[|fields| - 1], '=')
      case Some(kv) => if kv.0 == name then Some(kv.1) else LookupLast(fields[..|fields| - 1], name)
      case None => LookupLast(fields[..|fields| - 1], name)
  }

  /** The value the query string `query` gives to `name` when the last field of that name wins. */
  function QueryValueLast(query: string, name: string): Option<string>
  {
    LookupLast(Split(query, '&'), name)
  }

  /** The value the query string `query` gives to `name`. */
  function QueryValue(query: string, name: string): Option<string>
  {
    Lookup(Split(query, '&'), name)
  }

  /** A string free of `sep` is one piece. */
  lemma {:induction false} SplitWithoutSeparator(a: string, sep: char)
    requires sep !in a
    ensures Split(a, sep) == [a]
  {
    if a != [] {
      SplitWithoutSeparator(a[1..], sep);
      assert [a[0]] + a[1..] == a;
    }
  }

  /** A leading piece free of `sep` is cut off at the first `sep`. */
  lemma {:induction false} SplitAfterPiece(a: string, sep: char, b: string)
    requires sep !in a
    ensures Split(a + [sep] + b, sep) == [a] + Split(b, sep)
  {
    var s := a + [sep] + b;
    if a == [] {
      assert s[1..] == b;
    } else {
      assert s[1..] == a[1..] + [sep] + b;
      SplitAfterPiece(a[1..], sep, b);
      assert [a[0]] + a[1..] == a;
    }
  }

  /** The field `name=value`. */
  function Field(name: string, value: string): string
  {
    name + "=" + value
  }

  /** A field whose name has no `=` splits at the `=` after the name. */
  lemma {:induction false} SplitAtFirstAfterName(name: string, c: char, value: string)
    requires c !in name
    ensures SplitAtFirst(name + [c] + value, c) == Some((name, value))
  {
    var s := name + [c] + value;
    if name == [] {
      assert s[1..] == value;
    } else {
      assert s[1..] == name[1..] + [c] + value;
      SplitAtFirstAfterName(name[1..], c, value);
      assert [name[0]] + name[1..] == name;
    }
  }

  /** The first field answers for its own name and passes every other name on to the rest. */
  lemma FieldLookup(name: string, value: string, rest: seq<string>, other: string)
    requires '=' !in name
    ensures Lookup([Field(name, value)] + rest, other)
      == if other == name then Some(value) else Lookup(rest, other)
  {
    SplitAtFirstAfterName(name, '=', value);
    assert ([Field(name, value)] + rest)[1..] == rest;
  }

  /** Read from the end, the last field answers for its own name and passes every other name on. */
  lemma FieldLookupLast(rest: seq<string>, name: string, value: string, other: string)
    requires '=' !in name
    ensures LookupLast(rest + [Field(name, value)], other)
      == if other == name then Some(value) else LookupLast(rest, other)
  {
    SplitAtFirstAfterName(name, '=', value);
    var fields := rest + [Field(name, value)];
    assert fields[..|fields| - 1] == rest;
  }
}
