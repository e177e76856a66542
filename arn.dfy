/**
 * Python's `str.split(sep)` with an explicit one-character separator, used to
 * take an ARN (`arn:partition:service:region:account-id:resource`) apart at
 * its colons, and its inverse `sep.join(fields)`.
 */
module Arn {

  /** The number of occurrences of `c` in `s`. */
  function Count(c: char, s: string): nat {
    if s == [] then 0 else (if s[0] == c then 1 else 0) + Count(c, s[1..])
  }

  /** `s.split(sep)`: one field more than there are separators, none of them holding one. */
  function Split(s: string, sep: char): (fields: seq<string>)
    ensures |fields| == Count(sep, s) + 1
    ensures forall f :: f in fields ==> sep !in f
  {
    if s == [] then [[]]
    else
      var rest := Split(s[1..], sep);
      if s[0] == sep then [[]] + rest
      else [[s[0]] + rest[0]] + rest[1..]
  }

  /** `sep.join(fields)` */
  function Join(fields: seq<string>, sep: char): string
    requires |fields| > 0
  {
    if |fields| == 1 then fields[0] else fields[0] + [sep] + Join(fields[1..], sep)
  }

  /** Joining the fields of a split gives back the string. */
  lemma {:induction false} JoinSplit(s: string, sep: char)
    ensures Join(Split(s, sep), sep) == s
  {
    if s != [] {
      var rest := Split(s[1..], sep);
      JoinSplit(s[1..], sep);
      if s[0] == sep {
        assert Split(s, sep)[1..] == rest;
      } else {
        var fields := Split(s, sep);
        assert fields[0] == [s[0]] + rest[0];
        if |rest| > 1 {
          assert fields[1..] == rest[1..];
        }
        assert s == [s[0]] + s[1..];
      }
    }
  }

  /** Splitting a string that starts with a separator-free field `f`. */
  lemma {:induction false} SplitPrefix(f: string, t: string, sep: char)
    requires sep !in f
    ensures Split(f + t, sep) == [f + Split(t, sep)[0]] + Split(t, sep)[1..]
  {
    if f != [] {
      SplitPrefix(f[1..], t, sep);
      assert (f + t)[1..] == f[1..] + t;
      assert f[0] != sep;
      assert [f[0]] + (f[1..] + Split(t, sep)[0]) == f + Split(t, sep)[0];
    } else {
      var fields := Split(t, sep);
      assert f + t == t && f + fields[0] == fields[0];
      assert fields == [fields[0]] + fields[1..];
    }
  }

  /** Splitting a join of separator-free fields gives back the fields. */
  lemma {:induction false} SplitJoin(fields: seq<string>, sep: char)
    requires |fields| > 0
    requires forall f :: f in fields ==> sep !in f
    ensures Split(Join(fields, sep), sep) == fields
  {
    var f := fields[0];
    if |fields| == 1 {
      SplitPrefix(f, [], sep);
      assert f + [] == f;
    } else {
      var rest := Join(fields[1..], sep);
      SplitJoin(fields[1..], sep);
      assert fields[0] + [sep] + rest == f + ([sep] + rest);
      SplitPrefix(f, [sep] + rest, sep);
      assert ([sep] + rest)[1..] == rest;
      assert f + [] == f;
    }
  }

  /** The fields of the example ARN `arn:aws:sns:us-east-1:123456789012:topic`. */
  const ExampleFields: seq<string> := ["arn", "aws", "sns", "us-east-1", "123456789012", "topic"]

  /** `arn:aws:sns:us-east-1:123456789012:topic`, an SNS topic ARN of account 123456789012. */
  const ExampleArn: string := Join(ExampleFields, ':')
}
