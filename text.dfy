/** The joining of recognised fragments into one string (main.py, line 93), and the
    splitting that undoes it. */
module Text {

  /** The sum of the lengths of the fragments. */
  function TotalLength(parts: seq<string>): nat
  {
    if |parts| == 0 then 0 else |parts[0]| + TotalLength(parts[1..])
  }

  /** Python's `' '.join(parts)`: the fragments in order, one space between neighbours. */
  function JoinWithSpace(parts: seq<string>): (r: string)
    ensures |r| == TotalLength(parts) + (if |parts| == 0 then 0 else |parts| - 1)
    ensures r == "" <==> |parts| == 0 || (|parts| == 1 && parts[0] == "")
    ensures |parts| > 0 ==> |parts[0]| <= |r| && r[..|parts[0]|] == parts[0]
  {
    if |parts| == 0 then ""
    else if |parts| == 1 then parts[0]
    else parts[0] + " " + JoinWithSpace(parts[1..])
  }

  /** Python's `s.split(' ')`: the maximal space-free pieces between the spaces,
      empty pieces included, so that there is always at least one. */
  function SplitOnSpace(s: string): (r: seq<string>)
    ensures |r| >= 1
    ensures forall k :: 0 <= k < |r| ==> ' ' !in r[k]
    ensures |r| == 1 <==> ' ' !in s
  {
    if |s| == 0 then [""]
    else
      var rest := SplitOnSpace(s[1..]);
      if s[0] == ' ' then [""] + rest
      else [[s[0]] + rest[0]] + rest[1..]
  }

  /** A string without spaces is one piece. */
  lemma {:induction false} SplitWord(a: string)
    requires ' ' !in a
    ensures SplitOnSpace(a) == [a]
  {
    if |a| > 0 {
      assert ' ' !in a[1..] by {
        forall k | 0 <= k < |a[1..]| ensures a[1..][k] != ' ' { assert a[1..][k] == a[k + 1]; }
      }
      SplitWord(a[1..]);
      assert [a[0]] + a[1..] == a;
    }
  }

  /** Splitting a space-free word, a space and a rest yields the word, then the rest's pieces. */
  lemma {:induction false} SplitAfterWord(a: string, b: string)
    requires ' ' !in a
    ensures SplitOnSpace(a + " " + b) == [a] + SplitOnSpace(b)
  {
    var s := a + " " + b;
    if |a| == 0 {
      assert s[0] == ' ' && s[1..] == b;
    } else {
      assert ' ' !in a[1..] by {
        forall k | 0 <= k < |a[1..]| ensures a[1..][k] != ' ' { assert a[1..][k] == a[k + 1]; }
      }
      assert s[1..] == a[1..] + " " + b;
      SplitAfterWord(a[1..], b);
      assert s[0] == a[0] != ' ';
      assert [a[0]] + a[1..] == a;
    }
  }

  /** Joining the pieces of a split gives back the string: the join loses nothing. */
  lemma {:induction false} JoinSplit(s: string)
    ensures JoinWithSpace(SplitOnSpace(s)) == s
  {
    if |s| > 0 {
      var rest := SplitOnSpace(s[1..]);
      JoinSplit(s[1..]);
      if s[0] == ' ' {
        assert [""] + rest == [""] + rest[0..];
        assert ([""] + rest)[1..] == rest;
        assert JoinWithSpace([""] + rest) == "" + " " + JoinWithSpace(rest);
        assert " " + s[1..] == s;
      } else {
        var w := [[s[0]] + rest[0]] + rest[1..];
        assert SplitOnSpace(s) == w;
        if |rest| == 1 {
          assert JoinWithSpace(rest) == rest[0];
          assert JoinWithSpace(w) == [s[0]] + rest[0];
        } else {
          assert w[1..] == rest[1..];
          assert JoinWithSpace(rest) == rest[0] + " " + JoinWithSpace(rest[1..]);
          assert JoinWithSpace(w) == ([s[0]] + rest[0]) + " " + JoinWithSpace(rest[1..]);
        }
        assert [s[0]] + s[1..] == s;
      }
    }
  }

  /** When no fragment contains a space, the joined text determines the fragments:
      splitting it recovers them in order. */
  lemma {:induction false} SplitJoin(parts: seq<string>)
    requires |parts| >= 1
    requires forall k :: 0 <= k < |parts| ==> ' ' !in parts[k]
    ensures SplitOnSpace(JoinWithSpace(parts)) == parts
  {
    if |parts| == 1 {
      SplitWord(parts[0]);
    } else {
      SplitJoin(parts[1..]);
      SplitAfterWord(parts[0], JoinWithSpace(parts[1..]));
      assert [parts[0]] + parts[1..] == parts;
    }
  }
}
