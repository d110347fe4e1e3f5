/** String helpers with the meaning Python gives them: `sep.join(parts)`,
    `s.split(sep)` for a one-character separator, and prompt templates whose
    holes are filled with field values (`str.format` and f-strings). */
module Text {

  /** `sep.join(parts)`. */
  function Join(sep: char, parts: seq<string>): string
    decreases |parts|
  {
    if |parts| == 0 then ""
    else if |parts| == 1 then parts[0]
    else parts[0] + [sep] + Join(sep, parts[1..])
  }

  /** `s.split(sep)`: the pieces between separators, always at least one. */
  function Split(sep: char, s: string): (pieces: seq<string>)
    ensures |pieces| >= 1
    decreases |s|
  {
    if s == [] then [""]
    else
      var rest := Split(sep, s[1..]);
      if s[0] == sep then [""] + rest
      else [[s[0]] + rest[0]] + rest[1..]
  }

  lemma {:induction false} SplitNoSeparator(sep: char, a: string, b: string)
    requires sep !in a
    ensures Split(sep, a + b) == [a + Split(sep, b)[0]] + Split(sep, b)[1..]
    decreases |a|
  {
    if a != [] {
      assert (a + b)[0] == a[0] && a[0] != sep;
      assert (a + b)[1..] == a[1..] + b;
      SplitNoSeparator(sep, a[1..], b);
      var sb := Split(sep, b);
      var rest := Split(sep, a[1..] + b);
      assert rest[0] == a[1..] + sb[0] && rest[1..] == sb[1..];
      assert Split(sep, a + b) == [[a[0]] + rest[0]] + rest[1..];
      assert [a[0]] + (a[1..] + sb[0]) == a + sb[0];
    } else {
      assert a + b == b;
      var sb := Split(sep, b);
      assert a + sb[0] == sb[0];
      assert sb == [sb[0]] + sb[1..];
    }
  }

  /** Joining pieces that do not contain the separator and splitting the result
      again gives the pieces back. */
  lemma {:induction false} SplitJoin(sep: char, parts: seq<string>)
    requires |parts| > 0
    requires forall k :: 0 <= k < |parts| ==> sep !in parts[k]
    ensures Split(sep, Join(sep, parts)) == parts
    decreases |parts|
  {
    if |parts| == 1 {
      SplitNoSeparator(sep, parts[0], "");
      assert parts[0] + "" == parts[0];
    } else {
      var tail := Join(sep, parts[1..]);
      SplitJoin(sep, parts[1..]);
      assert parts[0] + [sep] + tail == parts[0] + ([sep] + tail);
      assert ([sep] + tail)[1..] == tail;
      assert Split(sep, [sep] + tail) == [""] + Split(sep, tail);
      SplitNoSeparator(sep, parts[0], [sep] + tail);
      assert parts[0] + "" == parts[0];
      assert parts == [parts[0]] + parts[1..];
    }
  }

  /** `pieces[0] + values[0] + pieces[1] + ... + values[n-1] + pieces[n]`:
      a template whose literal text is `pieces` with the `values` put in its holes. */
  function Fill(pieces: seq<string>, values: seq<string>): string
    requires |pieces| == |values| + 1
    decreases |values|
  {
    if values == [] then pieces[0]
    else pieces[0] + values[0] + Fill(pieces[1..], values[1..])
  }

  /** Where the k-th hole of a filled template starts. */
  function HoleOffset(pieces: seq<string>, values: seq<string>, k: nat): nat
    requires |pieces| == |values| + 1 && k < |values|
    decreases k
  {
    if k == 0 then |pieces[0]|
    else |pieces[0]| + |values[0]| + HoleOffset(pieces[1..], values[1..], k - 1)
  }

  /** `sub` occurs in `s` as a contiguous slice (Python's `sub in s`). */
  ghost predicate Contains(s: string, sub: string) {
    exists i, j | 0 <= i <= j <= |s| :: j - i == |sub| && s[i..j] == sub
  }

  /** The k-th value stands, unchanged, at the k-th hole of the filled template. */
  lemma {:induction false} FillEmbeds(pieces: seq<string>, values: seq<string>, k: nat)
    requires |pieces| == |values| + 1 && k < |values|
    ensures var o := HoleOffset(pieces, values, k);
      o + |values[k]| <= |Fill(pieces, values)| && Fill(pieces, values)[o..o + |values[k]|] == values[k]
    ensures Contains(Fill(pieces, values), values[k])
    decreases k
  {
    var f := Fill(pieces, values);
    var o := HoleOffset(pieces, values, k);
    if k == 0 {
      assert f[o..o + |values[0]|] == values[0];
    } else {
      var rest := Fill(pieces[1..], values[1..]);
      FillEmbeds(pieces[1..], values[1..], k - 1);
      var head := pieces[0] + values[0];
      assert f == head + rest;
      var o' := HoleOffset(pieces[1..], values[1..], k - 1);
      assert o == |head| + o';
      assert f[o..o + |values[k]|] == rest[o'..o' + |values[k]|];
    }
    assert f[o..o + |values[k]|] == values[k];
  }

  /** Every value of a filled template occurs in it. */
  lemma FillContains(pieces: seq<string>, values: seq<string>)
    requires |pieces| == |values| + 1
    ensures forall k :: 0 <= k < |values| ==> Contains(Fill(pieces, values), values[k])
  {
    forall k | 0 <= k < |values| ensures Contains(Fill(pieces, values), values[k]) {
      FillEmbeds(pieces, values, k);
    }
  }
}
