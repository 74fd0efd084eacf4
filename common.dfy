/** Values shared by every route: optional values, HTTP replies, and the
    JavaScript `String.prototype.split` on a one-character separator that
    both token extractors rely on. */
module Common {

  datatype Option<+T> = None | Some(value: T)

  /** An HTTP reply: a status with a JSON body, or a status with `{ error }`. */
  datatype Response<+T> = Success(status: int, value: T) | Failure(status: int, error: string)

  /** JavaScript truthiness of an optional string field: absent and "" are falsy. */
  predicate Present(s: Option<string>)
  {
    s.Some? && s.value != ""
  }

  /** `s.split(sep)`: the maximal runs between separators, empty runs included. */
  function Split(s: string, sep: char): (fields: seq<string>)
    ensures |fields| >= 1
    ensures forall i :: 0 <= i < |fields| ==> sep !in fields[i]
    decreases |s|
  {
    if s == [] then [[]]
    else
      var rest := Split(s[1..], sep);
      if s[0] == sep then [[]] + rest
      else [[s[0]] + rest[0]] + rest[1..]
  }

  /** `fields.join(sep)`, the inverse of Split. */
  function Join(fields: seq<string>, sep: char): string
    requires |fields| >= 1
    decreases |fields|
  {
    if |fields| == 1 then fields[0] else fields[0] + [sep] + Join(fields[1..], sep)
  }

  /** Joining what Split produced gives back the original string. */
  lemma {:induction false} JoinSplit(s: string, sep: char)
    ensures Join(Split(s, sep), sep) == s
    decreases |s|
  {
    if s != [] {
      JoinSplit(s[1..], sep);
      var rest := Split(s[1..], sep);
      if s[0] != sep {
        var fields := Split(s, sep);
        assert fields[0] == [s[0]] + rest[0];
        if |rest| == 1 {
          assert Join(fields, sep) == [s[0]] + rest[0];
        } else {
          assert fields[1..] == rest[1..];
          assert Join(fields, sep) == ([s[0]] + rest[0]) + [sep] + Join(rest[1..], sep);
        }
      }
    }
  }

  /** A string without the separator is a single field. */
  lemma {:induction false} SplitWithoutSeparator(s: string, sep: char)
    requires sep !in s
    ensures Split(s, sep) == [s]
    decreases |s|
  {
    if s != [] {
      SplitWithoutSeparator(s[1..], sep);
      assert [s[0]] + s[1..] == s;
    }
  }

  /** A separator-free word followed by the separator starts a new field. */
  lemma {:induction false} SplitAfterWord(w: string, sep: char, rest: string)
    requires sep !in w
    ensures Split(w + [sep] + rest, sep) == [w] + Split(rest, sep)
    decreases |w|
  {
    if w == [] {
      assert w + [sep] + rest == [sep] + rest;
      assert ([sep] + rest)[1..] == rest;
    } else {
      assert (w + [sep] + rest)[1..] == w[1..] + [sep] + rest;
      SplitAfterWord(w[1..], sep, rest);
      assert [w[0]] + w[1..] == w;
    }
  }

  /** `s.split(' ')[1]`: the second space-separated field, if there is one. */
  function SecondField(s: string): (field: Option<string>)
    ensures field.Some? ==> |Split(s, ' ')| >= 2 && field.value == Split(s, ' ')[1] && ' ' !in field.value
  {
    var fields := Split(s, ' ');
    if |fields| >= 2 then Some(fields[1]) else None
  }

  /** The second field exists exactly when the string holds a space. */
  lemma {:induction false} SecondFieldExists(s: string)
    ensures SecondField(s).Some? <==> ' ' in s
    decreases |s|
  {
    if s != [] {
      SecondFieldExists(s[1..]);
    }
  }

  /** A scheme word, one space and a space-free token: the token is the second field. */
  lemma SecondFieldOfCredentials(scheme: string, token: string)
    requires ' ' !in scheme && ' ' !in token
    ensures SecondField(scheme + " " + token) == Some(token)
  {
    SplitAfterWord(scheme, ' ', token);
    SplitWithoutSeparator(token, ' ');
  }
}
