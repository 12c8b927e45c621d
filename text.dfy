/**
 * The string operations the scorer relies on: ASCII lower-casing,
 * substring search, and splitting on '\n' (Python's `str.split('\n')`).
 */
module Text {

  /** ASCII lower-casing of one character; every other character is unchanged. */
  function LowerChar(c: char): char {
    if 'A' <= c <= 'Z' then (c as int + 32) as char else c
  }

  /** `s.lower()`, restricted to ASCII letters. */
  function Lower(s: string): string {
    seq(|s|, i requires 0 <= i < |s| => LowerChar(s[i]))
  }

  /** Lower-casing commutes with taking a slice. */
  lemma LowerSlice(s: string, i: nat, j: nat)
    requires i <= j <= |s|
    ensures Lower(s)[i..j] == Lower(s[i..j])
  {
  }

  /** `pat` occurs in `s` starting at index `i`. */
  predicate OccursAt(s: string, pat: string, i: int) {
    0 <= i <= |s| - |pat| && s[i..i + |pat|] == pat
  }

  /** Python's `pat in s`. */
  predicate Contains(s: string, pat: string) {
    exists i | 0 <= i <= |s| - |pat| :: OccursAt(s, pat, i)
  }

  /** Number of '\n' characters in `s`. */
  function NewlineCount(s: string): nat {
    if s == [] then 0 else (if s[0] == '\n' then 1 else 0) + NewlineCount(s[1..])
  }

  /**
   * `s.split('\n')`: the maximal '\n'-free segments of `s`, so one more
   * than the number of separators, and never empty.
   */
  function Split(s: string): (r: seq<string>)
    ensures |r| == NewlineCount(s) + 1
    ensures forall k | 0 <= k < |r| :: '\n' !in r[k]
  {
    if s == [] then [""]
    else if s[0] == '\n' then [""] + Split(s[1..])
    else
      var rest := Split(s[1..]);
      [[s[0]] + rest[0]] + rest[1..]
  }

  /** `'\n'.join(parts)`. */
  function Join(parts: seq<string>): string
    requires |parts| >= 1
  {
    if |parts| == 1 then parts[0] else parts[0] + "\n" + Join(parts[1..])
  }

  /** Splitting and joining back gives the original text. */
  lemma {:induction false} JoinSplit(s: string)
    ensures Join(Split(s)) == s
  {
    if s == [] {
    } else if s[0] == '\n' {
      var rest := Split(s[1..]);
      JoinSplit(s[1..]);
      assert Split(s) == [""] + rest;
      assert Join([""] + rest) == "" + "\n" + Join(rest) by {
        assert ([""] + rest)[1..] == rest;
      }
      assert s == "\n" + s[1..];
    } else {
      var rest := Split(s[1..]);
      var head := [s[0]] + rest[0];
      JoinSplit(s[1..]);
      assert Split(s) == [head] + rest[1..];
      if |rest| == 1 {
        assert Join(rest) == rest[0];
        assert s == [s[0]] + s[1..];
      } else {
        var tail := Join(rest[1..]);
        assert Join([head] + rest[1..]) == head + "\n" + tail by {
          assert ([head] + rest[1..])[1..] == rest[1..];
        }
        assert Join(rest) == rest[0] + "\n" + tail;
        assert head + "\n" + tail == [s[0]] + (rest[0] + "\n" + tail);
        assert s == [s[0]] + s[1..];
      }
    }
  }

  /** Splitting `p + t` for a separator-free `p` glues `p` onto the first segment of `t`. */
  lemma {:induction false} SplitPrefix(p: string, t: string)
    requires '\n' !in p
    ensures Split(p + t) == [p + Split(t)[0]] + Split(t)[1..]
  {
    var st := Split(t);
    if p == [] {
      assert p + t == t;
      assert p + st[0] == st[0];
      assert st == [st[0]] + st[1..];
    } else {
      var pt := p + t;
      SplitPrefix(p[1..], t);
      assert pt[0] == p[0] && pt[0] != '\n';
      assert pt[1..] == p[1..] + t;
      var rest := Split(pt[1..]);
      assert rest == [p[1..] + st[0]] + st[1..];
      assert Split(pt) == [[p[0]] + rest[0]] + rest[1..];
      assert [p[0]] + (p[1..] + st[0]) == p + st[0];
    }
  }

  /** Joining separator-free pieces and splitting again gives the pieces back. */
  lemma {:induction false} SplitJoin(parts: seq<string>)
    requires |parts| >= 1
    requires forall piece | piece in parts :: '\n' !in piece
    ensures Split(Join(parts)) == parts
  {
    if |parts| == 1 {
      SplitPrefix(parts[0], "");
      assert parts[0] + "" == parts[0];
    } else {
      var t := "\n" + Join(parts[1..]);
      SplitJoin(parts[1..]);
      assert t[0] == '\n' && t[1..] == Join(parts[1..]);
      assert Split(t) == [""] + parts[1..];
      SplitPrefix(parts[0], t);
      assert parts[0] + "\n" + Join(parts[1..]) == parts[0] + t;
      assert parts[0] + "" == parts[0];
      assert [parts[0]] + parts[1..] == parts;
    }
  }
}
