/** Parsing of the Authorization header: Python's `s.split(" ")`, which cuts
    at every single space and keeps empty fields, followed by taking field [1]
    as the token. The first field (the scheme) is never inspected. */
module AuthHeader {
  import opened Http

  /** `s.split(" ")`: the space-free fields between single spaces. */
  function Split(s: string): (fields: seq<string>)
    ensures |fields| >= 1
    ensures forall i :: 0 <= i < |fields| ==> ' ' !in fields[i]
    ensures |fields| == 1 <==> ' ' !in s
  {
    if s == [] then [[]]
    else
      var rest := Split(s[1..]);
      assert ' ' in s <==> s[0] == ' ' || ' ' in s[1..] by {
        assert s == [s[0]] + s[1..];
      }
      if s[0] == ' ' then [[]] + rest
      else [[s[0]] + rest[0]] + rest[1..]
  }

  /** `" ".join(fields)`. */
  function Join(fields: seq<string>): string
    requires |fields| >= 1
  {
    if |fields| == 1 then fields[0] else fields[0] + " " + Join(fields[1..])
  }

  /** `header.split(" ")[1]`, with None where Python raises IndexError. */
  function TokenField(header: string): (token: Option<string>)
    ensures token.Some? <==> ' ' in header
    ensures token.Some? ==> ' ' !in token.value
  {
    var fields := Split(header);
    if |fields| >= 2 then Some(fields[1]) else None
  }

  /** Joining is unaffected by where a leading character is attached. */
  lemma JoinPrepend(c: char, fields: seq<string>)
    requires |fields| >= 1
    ensures Join([[c] + fields[0]] + fields[1..]) == [c] + Join(fields)
  {
    var joined := [[c] + fields[0]] + fields[1..];
    if |fields| > 1 {
      assert joined[1..] == fields[1..];
    }
  }

  /** Splitting loses nothing: the fields joined by spaces give back the header. */
  lemma {:induction false} JoinSplit(s: string)
    ensures Join(Split(s)) == s
  {
    if s != [] {
      var rest := Split(s[1..]);
      JoinSplit(s[1..]);
      if s[0] == ' ' {
        assert Split(s) == [[]] + rest;
        assert ([[]] + rest)[1..] == rest;
      } else {
        assert Split(s) == [[s[0]] + rest[0]] + rest[1..];
        JoinPrepend(s[0], rest);
      }
      assert s == [s[0]] + s[1..];
    }
  }

  /** A space-free string is a single field. */
  lemma {:induction false} SplitWord(w: string)
    requires ' ' !in w
    ensures Split(w) == [w]
  {
    if w != [] {
      assert ' ' !in w[1..] by { assert forall k :: 0 <= k < |w[1..]| ==> w[1..][k] == w[k + 1]; }
      SplitWord(w[1..]);
      assert w == [w[0]] + w[1..];
    }
  }

  /** A space-free first word followed by a space is split off as one field. */
  lemma {:induction false} SplitAfterWord(w: string, rest: string)
    requires ' ' !in w
    ensures Split(w + " " + rest) == [w] + Split(rest)
  {
    if w == [] {
      assert w + " " + rest == [' '] + rest;
      assert (w + " " + rest)[1..] == rest;
    } else {
      assert ' ' !in w[1..] by { assert forall k :: 0 <= k < |w[1..]| ==> w[1..][k] == w[k + 1]; }
      SplitAfterWord(w[1..], rest);
      assert (w + " " + rest)[1..] == w[1..] + " " + rest;
      assert w == [w[0]] + w[1..];
    }
  }

  /** Splitting is the inverse of joining space-free fields. */
  lemma {:induction false} SplitJoin(fields: seq<string>)
    requires |fields| >= 1
    requires forall i :: 0 <= i < |fields| ==> ' ' !in fields[i]
    ensures Split(Join(fields)) == fields
  {
    if |fields| == 1 {
      SplitWord(fields[0]);
    } else {
      SplitJoin(fields[1..]);
      SplitAfterWord(fields[0], Join(fields[1..]));
      assert fields == [fields[0]] + fields[1..];
    }
  }

  /** Whatever space-free word comes first, the token is the first field after
      the first space: the scheme word (e.g. "Bearer") plays no part. */
  lemma TokenAfterAnyScheme(scheme: string, rest: string)
    requires ' ' !in scheme
    ensures TokenField(scheme + " " + rest) == Some(Split(rest)[0])
    ensures ' ' !in rest ==> TokenField(scheme + " " + rest) == Some(rest)
  {
    SplitAfterWord(scheme, rest);
    if ' ' !in rest {
      SplitWord(rest);
    }
  }
}
