/** The Python string operations the file-name logic relies on: `str.split(sep)`,
    `sep.join(parts)`, `str.lower()`, `str.endswith(suffix)` and slicing `[0:n]`. */
module Text {

  /** `s.split(d)`: the pieces between occurrences of `d`, empty pieces included;
      there is always at least one piece. */
  function Split(s: string, d: char): (r: seq<string>)
    ensures |r| >= 1
  {
    if s == [] then [[]]
    else
      var rest := Split(s[1..], d);
      if s[0] == d then [[]] + rest
      else [[s[0]] + rest[0]] + rest[1..]
  }

  /** `d.join(parts)`. */
  function Join(parts: seq<string>, d: char): string
  {
    if |parts| == 0 then []
    else if |parts| == 1 then parts[0]
    else parts[0] + [d] + Join(parts[1..], d)
  }

  /** Python slicing `xs[0:n]`, which never fails: it stops at the end of `xs`. */
  function Take<T>(xs: seq<T>, n: nat): (r: seq<T>)
    ensures |r| == if n <= |xs| then n else |xs|
    ensures r <= xs
  {
    if n <= |xs| then xs[..n] else xs
  }

  /** The negative index `xs[-2]` of Python. */
  function SecondToLast<T>(xs: seq<T>): T
    requires |xs| >= 2
  {
    xs[|xs| - 2]
  }

  function LowerChar(c: char): char
  {
    if 'A' <= c <= 'Z' then (c as int + 32) as char else c
  }

  /** `s.lower()` restricted to ASCII letters. */
  function Lower(s: string): (r: string)
    ensures |r| == |s|
  {
    seq(|s|, i requires 0 <= i < |s| => LowerChar(s[i]))
  }

  predicate EndsWith(s: string, suffix: string)
  {
    |suffix| <= |s| && s[|s| - |suffix|..] == suffix
  }

  /** Joining the pieces of a split gives the string back. */
  lemma {:induction false} JoinSplit(s: string, d: char)
    ensures Join(Split(s, d), d) == s
  {
    if s != [] {
      var rest := Split(s[1..], d);
      JoinSplit(s[1..], d);
      if s[0] == d {
        assert Split(s, d) == [[]] + rest;
        assert ([[]] + rest)[1..] == rest;
      } else {
        var p := [s[0]] + rest[0];
        assert Split(s, d) == [p] + rest[1..];
        if |rest| > 1 {
          assert ([p] + rest[1..])[1..] == rest[1..];
          calc {
            Join([p] + rest[1..], d);
            p + [d] + Join(rest[1..], d);
            [s[0]] + (rest[0] + [d] + Join(rest[1..], d));
            [s[0]] + Join(rest, d);
            [s[0]] + s[1..];
          }
        }
      }
    }
  }

  /** Splitting a join of delimiter-free pieces gives the pieces back. */
  lemma {:induction false} SplitJoin(parts: seq<string>, d: char)
    requires |parts| >= 1
    requires forall i :: 0 <= i < |parts| ==> d !in parts[i]
    ensures Split(Join(parts, d), d) == parts
  {
    if |parts| == 1 {
      SplitPlain(parts[0], d);
    } else {
      SplitJoin(parts[1..], d);
      SplitAppend(parts[0], Join(parts[1..], d), d);
      assert [parts[0]] + parts[1..] == parts;
    }
  }

  lemma {:induction false} SplitPlain(s: string, d: char)
    requires d !in s
    ensures Split(s, d) == [s]
  {
    if s != [] {
      assert d !in s[1..] by {
        forall i | 0 <= i < |s[1..]| ensures s[1..][i] != d { assert s[1..][i] == s[i + 1]; }
      }
      SplitPlain(s[1..], d);
      assert s[0] != d;
      assert [s[0]] + s[1..] == s;
    }
  }

  /** Splitting `p + [d] + t` for a piece `p` without `d`. */
  lemma {:induction false} SplitAppend(p: string, t: string, d: char)
    requires d !in p
    ensures Split(p + [d] + t, d) == [p] + Split(t, d)
  {
    if p == [] {
      assert [d] + t == p + [d] + t;
      assert ([d] + t)[1..] == t;
    } else {
      var q := p + [d] + t;
      assert q[0] == p[0] && p[0] != d;
      assert q[1..] == p[1..] + [d] + t;
      assert d !in p[1..] by {
        forall i | 0 <= i < |p[1..]| ensures p[1..][i] != d { assert p[1..][i] == p[i + 1]; }
      }
      SplitAppend(p[1..], t, d);
      var rest := Split(q[1..], d);
      assert rest == [p[1..]] + Split(t, d);
      assert Split(q, d) == [[p[0]] + rest[0]] + rest[1..];
      assert [p[0]] + p[1..] == p;
      assert rest[1..] == Split(t, d);
    }
  }

  /** Splitting `p + s` for a prefix `p` without `d`: `p` joins the first piece
      of `s`, and the other pieces are those of `s`. */
  lemma {:induction false} SplitPrefix(p: string, s: string, d: char)
    requires d !in p
    ensures Split(p + s, d) == [p + Split(s, d)[0]] + Split(s, d)[1..]
  {
    if p == [] {
      var t := Split(s, d);
      assert p + s == s && p + t[0] == t[0];
      assert [t[0]] + t[1..] == t;
    } else {
      var q := p + s;
      assert q[0] == p[0] && p[0] != d;
      assert q[1..] == p[1..] + s;
      assert d !in p[1..] by {
        forall i | 0 <= i < |p[1..]| ensures p[1..][i] != d { assert p[1..][i] == p[i + 1]; }
      }
      SplitPrefix(p[1..], s, d);
      var rest := Split(q[1..], d);
      assert Split(q, d) == [[p[0]] + rest[0]] + rest[1..];
      assert [p[0]] + (p[1..] + Split(s, d)[0]) == p + Split(s, d)[0];
    }
  }

  /** Joining a leading part of the pieces gives a prefix of the whole join. */
  lemma {:induction false} JoinTakeIsPrefix(parts: seq<string>, n: nat, d: char)
    ensures Join(Take(parts, n), d) <= Join(parts, d)
  {
    if n < |parts| && n > 0 {
      var whole := Join(parts, d);
      assert whole == parts[0] + [d] + Join(parts[1..], d);
      if n == 1 {
        assert Take(parts, n) == [parts[0]];
        assert whole[..|parts[0]|] == parts[0];
      } else {
        var front := Take(parts, n);
        JoinTakeIsPrefix(parts[1..], n - 1, d);
        assert front[1..] == Take(parts[1..], n - 1);
        var a := Join(Take(parts[1..], n - 1), d);
        var b := Join(parts[1..], d);
        assert Join(front, d) == parts[0] + [d] + a;
        assert b[..|a|] == a;
        assert (parts[0] + [d] + b)[..|parts[0]| + 1 + |a|] == parts[0] + [d] + a;
      }
    } else if n == 0 {
      assert Take(parts, n) == [];
    } else {
      assert Take(parts, n) == parts;
    }
  }
}
