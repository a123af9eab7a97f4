/** The Python string and path primitives the core relies on: `str(int)`,
    `os.path.join`, `os.path.basename`, `str.replace(old, "")` and
    `"\n".join`. Each is defined by its computation; the contracts and
    lemmas state what the core depends on. */
module Strings {

  predicate IsDigit(c: char) {
    '0' as int <= c as int <= '9' as int
  }

  function DigitChar(d: nat): (c: char)
    requires d < 10
    ensures IsDigit(c) && c as int - '0' as int == d
  {
    ('0' as int + d) as char
  }

  /** The number a string of decimal digits denotes (most significant first). */
  function DecimalValue(s: string): nat
    requires forall i :: 0 <= i < |s| ==> IsDigit(s[i])
  {
    if s == [] then 0
    else
      assert IsDigit(s[|s| - 1]);
      DecimalValue(s[..|s| - 1]) * 10 + (s[|s| - 1] as int - '0' as int)
  }

  /** `str(n)` for a non-negative integer: decimal digits, no leading zero. */
  function NatToDecimal(n: nat): (s: string)
    ensures |s| >= 1
    ensures forall i :: 0 <= i < |s| ==> IsDigit(s[i])
    ensures s[0] == '0' ==> s == "0"
    ensures DecimalValue(s) == n
    decreases n
  {
    if n < 10 then [DigitChar(n)]
    else
      var prefix := NatToDecimal(n / 10);
      var s := prefix + [DigitChar(n % 10)];
      assert s[..|s| - 1] == prefix;
      s
  }

  /** `str(i)` for any integer: a minus sign for negatives, then the digits. */
  function IntToString(i: int): (s: string)
    ensures |s| >= 1
    ensures (s[0] == '-') <==> (i < 0)
    ensures i >= 0 ==> s == NatToDecimal(i)
    ensures i < 0 ==> s[1..] == NatToDecimal(-i)
  {
    if i < 0 then "-" + NatToDecimal(-i) else NatToDecimal(i)
  }

  /** Reading the text back gives the number: different ports never print alike. */
  lemma IntToStringInjective(a: int, b: int)
    requires IntToString(a) == IntToString(b)
    ensures a == b
  {
    var s := IntToString(a);
    if a < 0 {
      assert b < 0;
      assert DecimalValue(s[1..]) == -a && DecimalValue(s[1..]) == -b;
    } else {
      assert b >= 0;
      assert DecimalValue(s) == a && DecimalValue(s) == b;
    }
  }

  /** `os.path.join(a, b)`: an absolute `b` replaces `a`; otherwise a single
      `/` is inserted unless `a` is empty or already ends with one. */
  function JoinPath(a: string, b: string): (p: string)
    ensures |b| > 0 && b[0] == '/' ==> p == b
    ensures |p| >= |b| && p[|p| - |b|..] == b
    ensures !(|b| > 0 && b[0] == '/') ==> p[..|p| - |b|] == a || p[..|p| - |b|] == a + "/"
    ensures !(|b| > 0 && b[0] == '/') ==> (p[..|p| - |b|] == a <==> a == [] || a[|a| - 1] == '/')
  {
    if |b| > 0 && b[0] == '/' then b
    else if a == [] || a[|a| - 1] == '/' then a + b
    else a + "/" + b
  }

  /** `os.path.basename(path)`: the longest suffix without a `/`. */
  function Basename(path: string): (name: string)
    ensures '/' !in name
    ensures |name| <= |path| && path[|path| - |name|..] == name
    ensures |name| < |path| ==> path[|path| - |name| - 1] == '/'
  {
    if path == [] || path[|path| - 1] == '/' then []
    else
      var name := Basename(path[..|path| - 1]) + [path[|path| - 1]];
      assert path[..|path| - 1][|path| - |name|..] == name[..|name| - 1];
      name
  }

  /** The three properties in Basename's contract pick out exactly one suffix. */
  lemma BasenameUnique(path: string, name: string)
    requires '/' !in name
    requires |name| <= |path| && path[|path| - |name|..] == name
    requires |name| < |path| ==> path[|path| - |name| - 1] == '/'
    ensures Basename(path) == name
  {
    var b := Basename(path);
    forall k | |path| - |b| <= k < |path|
      ensures path[k] != '/'
    {
      assert path[k] == b[k - (|path| - |b|)];
    }
    forall k | |path| - |name| <= k < |path|
      ensures path[k] != '/'
    {
      assert path[k] == name[k - (|path| - |name|)];
    }
    if |name| < |path| {
      assert path[|path| - |name| - 1] == '/';
    }
    if |b| < |path| {
      assert path[|path| - |b| - 1] == '/';
    }
    assert |b| == |name|;
  }

  /** A file joined onto a folder keeps its own name as its basename. */
  lemma BasenameOfJoin(folder: string, name: string)
    requires name != [] && '/' !in name
    ensures Basename(JoinPath(folder, name)) == name
  {
    var p := JoinPath(folder, name);
    assert name[0] in name;
    if folder == [] || folder[|folder| - 1] == '/' {
      assert p == folder + name;
      assert folder != [] ==> p[|p| - |name| - 1] == folder[|folder| - 1];
    } else {
      assert p == folder + "/" + name;
      assert p[|p| - |name| - 1] == '/';
    }
    BasenameUnique(p, name);
  }

  /** `p` occurs in `s` starting at index `i`. */
  predicate OccursAt(p: string, s: string, i: int) {
    0 <= i && i + |p| <= |s| && s[i..i + |p|] == p
  }

  /** `p` occurs somewhere in `s`. */
  ghost predicate Occurs(p: string, s: string) {
    exists i :: OccursAt(p, s, i)
  }

  /** `s.replace(p, "")`: one left-to-right pass that deletes every
      non-overlapping occurrence of `p`, leftmost first. Python leaves `s`
      unchanged when `p` is empty, and so does this. */
  function RemoveAll(s: string, p: string): (r: string)
    ensures |r| <= |s|
    decreases |s|
  {
    if p == [] || |s| < |p| then s
    else if s[..|p|] == p then
      RemoveAll(s[|p|..], p)
    else
      [s[0]] + RemoveAll(s[1..], p)
  }

  /** Removal never brings in a character the string did not have. */
  lemma {:induction false} RemoveAllChars(s: string, p: string)
    ensures forall c :: c in RemoveAll(s, p) ==> c in s
    decreases |s|
  {
    if p != [] && |s| >= |p| {
      if s[..|p|] == p {
        RemoveAllChars(s[|p|..], p);
        forall c | c in s[|p|..]
          ensures c in s
        {
          var i :| 0 <= i < |s[|p|..]| && s[|p|..][i] == c;
          assert s[|p| + i] == c;
        }
      } else {
        RemoveAllChars(s[1..], p);
        forall c | c in s[1..]
          ensures c in s
        {
          var i :| 0 <= i < |s[1..]| && s[1..][i] == c;
          assert s[1 + i] == c;
        }
      }
    }
  }

  /** Where `p` does not start a string, its first character is kept and
      the pass goes on from the next one. */
  lemma RemoveAllKeep(s: string, p: string)
    requires p != [] && s != [] && !(|p| <= |s| && s[..|p|] == p)
    ensures RemoveAll(s, p) == [s[0]] + RemoveAll(s[1..], p)
  {
  }

  /** A first character that cannot start `p` is kept, and the pass goes
      on from the next one. */
  lemma RemoveAllSkip(c: char, t: string, p: string)
    requires p != [] && c != p[0]
    ensures RemoveAll([c] + t, p) == [c] + RemoveAll(t, p)
  {
    var s := [c] + t;
    assert s[1..] == t;
    if |p| <= |s| {
      assert s[..|p|][0] != p[0];
    }
    RemoveAllKeep(s, p);
  }

  /** A leading occurrence of `p` is removed, and the pass goes on after it. */
  lemma RemoveAllMatch(p: string, t: string)
    requires p != []
    ensures RemoveAll(p + t, p) == RemoveAll(t, p)
  {
    assert (p + t)[..|p|] == p && (p + t)[|p|..] == t;
  }

  /** A string shorter than `p` is left alone. */
  lemma RemoveAllShort(s: string, p: string)
    requires |s| < |p|
    ensures RemoveAll(s, p) == s
  {
  }

  /** Where `p` does not occur, nothing is removed. */
  lemma {:induction false} RemoveAllAbsent(s: string, p: string)
    requires !Occurs(p, s)
    ensures RemoveAll(s, p) == s
    decreases |s|
  {
    if p != [] && |s| >= |p| {
      assert s[..|p|] != p by {
        assert !OccursAt(p, s, 0);
      }
      forall i | OccursAt(p, s[1..], i)
        ensures OccursAt(p, s, i + 1)
      {
        assert s[i + 1..i + 1 + |p|] == s[1..][i..i + |p|];
      }
      RemoveAllAbsent(s[1..], p);
    }
  }

  /** Removing a pattern whose first character appears nowhere else in it
      from `name + p`, where `name` does not contain `p`, gives back `name`:
      no occurrence can straddle the join. */
  lemma {:induction false} RemoveAllTrailing(name: string, p: string)
    requires p != [] && p[0] !in p[1..]
    requires !Occurs(p, name)
    ensures RemoveAll(name + p, p) == name
    decreases |name|
  {
    var s := name + p;
    if name == [] {
      assert s[..|p|] == p && s[|p|..] == [];
    } else {
      assert s[..|p|] != p by {
        if |name| >= |p| {
          assert s[..|p|] == name[0..0 + |p|];
          assert !OccursAt(p, name, 0);
        } else {
          assert s[..|p|][|name|] == p[0];
          assert p[1..][|name| - 1] == p[|name|];
          assert p[|name|] != p[0];
        }
      }
      forall i | OccursAt(p, name[1..], i)
        ensures OccursAt(p, name, i + 1)
      {
        assert name[i + 1..i + 1 + |p|] == name[1..][i..i + |p|];
      }
      RemoveAllTrailing(name[1..], p);
      assert s[1..] == name[1..] + p;
    }
  }

  /** Concatenation regroups freely. */
  lemma AppendAssoc(u: string, v: string, w: string)
    ensures u + v + w == u + (v + w)
  {
  }

  /** A pattern whose first two characters differ is removed from right
      after a single character. */
  lemma RemoveAllAfterChar(x: char, p: string)
    requires |p| >= 2 && p[0] != p[1]
    ensures RemoveAll([x] + p, p) == [x]
  {
    var s := [x] + p;
    assert RemoveAll(s, p) == [x] + RemoveAll(p, p) by {
      assert s[..|p|][1] != p[1];
      assert s[1..] == p;
      RemoveAllKeep(s, p);
    }
    assert RemoveAll(p, p) == [] by {
      RemoveAllMatch(p, []);
      assert p + [] == p;
    }
  }

  /** A pattern embedded between two characters is removed wherever it
      stands, so `a + p + x + p` loses both copies. */
  lemma RemoveAllEmbedded(a: char, x: char, p: string)
    requires |p| >= 2 && p[0] != p[1] && a != p[0]
    ensures RemoveAll([a] + p + [x] + p, p) == [a, x]
  {
    var t := p + ([x] + p);
    assert [a] + p + [x] + p == [a] + t by {
      AppendAssoc([a] + p, [x], p);
      AppendAssoc([a], p, [x] + p);
    }
    assert RemoveAll([a] + t, p) == [a] + RemoveAll(t, p) by {
      RemoveAllSkip(a, t, p);
    }
    assert RemoveAll(t, p) == RemoveAll([x] + p, p) by {
      RemoveAllMatch(p, [x] + p);
    }
    assert RemoveAll([x] + p, p) == [x] by {
      RemoveAllAfterChar(x, p);
    }
  }

  /** The pass does not look again at what a removal brings together: in
      `x + p[0] + p + p[1..]` the inner `p` is removed and the outer halves
      join into a new `p`, which stays. */
  lemma RemoveAllSinglePass(x: char, p: string)
    requires |p| >= 2 && p[0] != p[1] && x != p[0]
    ensures RemoveAll([x, p[0]] + p + p[1..], p) == [x] + p
  {
    var rest := p[1..];
    var t := [p[0]] + (p + rest);
    assert [x, p[0]] + p + rest == [x] + t by {
      assert [x, p[0]] == [x] + [p[0]];
      AppendAssoc([x] + [p[0]], p, rest);
      AppendAssoc([x], [p[0]], p + rest);
    }
    assert RemoveAll([x] + t, p) == [x] + RemoveAll(t, p) by {
      RemoveAllSkip(x, t, p);
    }
    assert RemoveAll(t, p) == [p[0]] + RemoveAll(p + rest, p) by {
      assert t[..|p|][1] != p[1];
      assert t[1..] == p + rest;
      RemoveAllKeep(t, p);
    }
    assert RemoveAll(p + rest, p) == rest by {
      RemoveAllMatch(p, rest);
      RemoveAllShort(rest, p);
    }
    assert [p[0]] + rest == p;
  }

  /** `"\n".join(lines)`. */
  function JoinLines(lines: seq<string>): (text: string)
    ensures lines == [] ==> text == ""
    ensures |lines| == 1 ==> text == lines[0]
  {
    if lines == [] then ""
    else if |lines| == 1 then lines[0]
    else JoinLines(lines[..|lines| - 1]) + "\n" + lines[|lines| - 1]
  }
}
