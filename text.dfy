/** Strings as Python's `str.join`, `str.split` with a one-character separator
    and `<` see them. Generated code is text; these are the tools the lemmas
    use to read it back. */
module Text {

  /** `sep.join(parts)`. */
  function Join(sep: string, parts: seq<string>): string
  {
    if |parts| == 0 then ""
    else if |parts| == 1 then parts[0]
    else parts[0] + sep + Join(sep, parts[1..])
  }

  /** `s.split(c)`: the pieces between occurrences of `c`; never empty. */
  function Split(c: char, s: string): (r: seq<string>)
    ensures |r| >= 1
  {
    if |s| == 0 then [""]
    else
      var rest := Split(c, s[1..]);
      if s[0] == c then [""] + rest
      else [[s[0]] + rest[0]] + rest[1..]
  }

  predicate StartsWith(s: string, prefix: string)
  {
    |prefix| <= |s| && s[..|prefix|] == prefix
  }

  /** `a in s` on strings: `a` occurs in `s` as a contiguous piece. */
  predicate Occurs(a: string, s: string)
    decreases |s|
  {
    StartsWith(s, a) || (|s| > 0 && Occurs(a, s[1..]))
  }

  /** Python's ordering of `str`: lexicographic by code point. */
  predicate LexLe(a: string, b: string)
  {
    |a| == 0 || (|b| > 0 && (a[0] < b[0] || (a[0] == b[0] && LexLe(a[1..], b[1..]))))
  }

  lemma {:induction false} LexLeTotal(a: string, b: string)
    ensures LexLe(a, b) || LexLe(b, a)
  {
    if |a| > 0 && |b| > 0 && a[0] == b[0] {
      LexLeTotal(a[1..], b[1..]);
    }
  }

  lemma {:induction false} LexLeTrans(a: string, b: string, c: string)
    requires LexLe(a, b) && LexLe(b, c)
    ensures LexLe(a, c)
  {
    if |a| > 0 && a[0] == b[0] && b[0] == c[0] {
      LexLeTrans(a[1..], b[1..], c[1..]);
    }
  }

  lemma {:induction false} LexLeAntisym(a: string, b: string)
    requires LexLe(a, b) && LexLe(b, a)
    ensures a == b
  {
    if |a| > 0 {
      LexLeAntisym(a[1..], b[1..]);
      assert a == [a[0]] + a[1..];
      assert b == [b[0]] + b[1..];
    }
  }

  lemma {:induction false} JoinAppend(sep: string, a: seq<string>, b: seq<string>)
    requires |a| > 0 && |b| > 0
    ensures Join(sep, a + b) == Join(sep, a) + sep + Join(sep, b)
  {
    if |a| > 1 {
      assert (a + b)[1..] == a[1..] + b;
      JoinAppend(sep, a[1..], b);
    } else {
      assert (a + b)[1..] == b;
    }
  }

  /** A piece free of the separator, followed by the separator, splits off. */
  lemma {:induction false} SplitAfter(c: char, a: string, b: string)
    requires c !in a
    ensures Split(c, a + [c] + b) == [a] + Split(c, b)
  {
    var s := a + [c] + b;
    if |a| == 0 {
      assert s[1..] == b;
    } else {
      assert s[1..] == a[1..] + [c] + b;
      SplitAfter(c, a[1..], b);
      assert a == [a[0]] + a[1..];
    }
  }

  /** Splitting at the first occurrence of `c`, found at index `k`. */
  lemma SplitAt(c: char, s: string, k: nat)
    requires k < |s| && s[k] == c && c !in s[..k]
    ensures Split(c, s) == [s[..k]] + Split(c, s[k + 1..])
  {
    assert s == s[..k] + [c] + s[k + 1..];
    SplitAfter(c, s[..k], s[k + 1..]);
  }

  /** The text before the first `c` of `a + b`, when `b` starts with `c`. */
  lemma SplitHead(c: char, a: string, b: string)
    requires c !in a && |b| > 0 && b[0] == c
    ensures Split(c, a + b)[0] == a
  {
    assert a + b == a + [c] + b[1..];
    SplitAfter(c, a, b[1..]);
  }

  /** The first `c`-delimited field of `pre c name c post`. */
  lemma SplitQuoted(c: char, pre: string, name: string, post: string)
    requires c !in pre && c !in name
    ensures |Split(c, pre + [c] + name + [c] + post)| >= 2
    ensures Split(c, pre + [c] + name + [c] + post)[1] == name
  {
    assert pre + [c] + name + [c] + post == pre + [c] + (name + [c] + post);
    SplitAfter(c, pre, name + [c] + post);
    SplitAfter(c, name, post);
  }

  lemma {:induction false} SplitNone(c: char, a: string)
    requires c !in a
    ensures Split(c, a) == [a]
  {
    if |a| > 0 {
      SplitNone(c, a[1..]);
      assert a == [a[0]] + a[1..];
    }
  }

  /** Splitting a join on its one-character separator gives the parts back,
      provided no part contains the separator. */
  lemma {:induction false} SplitJoin(c: char, parts: seq<string>)
    requires |parts| > 0
    requires forall i :: 0 <= i < |parts| ==> c !in parts[i]
    ensures Split(c, Join([c], parts)) == parts
  {
    if |parts| == 1 {
      SplitNone(c, parts[0]);
    } else {
      SplitJoin(c, parts[1..]);
      SplitAfter(c, parts[0], Join([c], parts[1..]));
      assert parts == [parts[0]] + parts[1..];
    }
  }

  /** Text around a join whose separator starts with `c`, regrouped as a
      join on `c` alone: each later part takes the rest of the separator
      in front, the first part takes `head` and the last takes `tail`. */
  lemma {:induction false} JoinPieces(c: char, rest: string, head: string, parts: seq<string>, tail: string)
    requires |parts| > 0
    ensures head + Join([c] + rest, parts) + tail ==
      Join([c], seq(|parts|, i requires 0 <= i < |parts| =>
        (if i == 0 then head else rest) + parts[i] + (if i == |parts| - 1 then tail else "")))
    decreases |parts|
  {
    var pieces := seq(|parts|, i requires 0 <= i < |parts| =>
      (if i == 0 then head else rest) + parts[i] + (if i == |parts| - 1 then tail else ""));
    if |parts| == 1 {
      assert pieces == [head + parts[0] + tail];
    } else {
      var later := parts[1..];
      JoinPieces(c, rest, rest, later, tail);
      var laterPieces := seq(|later|, i requires 0 <= i < |later| =>
        (if i == 0 then rest else rest) + later[i] + (if i == |later| - 1 then tail else ""));
      assert pieces[1..] == laterPieces;
      assert pieces[0] == head + parts[0];
      calc {
        head + Join([c] + rest, parts) + tail;
        head + (parts[0] + ([c] + rest) + Join([c] + rest, later)) + tail;
        (head + parts[0]) + [c] + (rest + Join([c] + rest, later) + tail);
        (head + parts[0]) + [c] + Join([c], laterPieces);
        Join([c], pieces);
      }
    }
  }

  /** Joining the pieces of a split on their separator gives the text
      back. */
  lemma {:induction false} JoinSplit(c: char, s: string)
    ensures Join([c], Split(c, s)) == s
    decreases |s|
  {
    if |s| > 0 {
      var rest := Split(c, s[1..]);
      JoinSplit(c, s[1..]);
      var parts := Split(c, s);
      assert s == [s[0]] + s[1..];
      if s[0] == c {
        assert parts == [""] + rest;
        assert parts[1..] == rest;
        assert Join([c], parts) == "" + [c] + Join([c], rest);
      } else if |rest| == 1 {
        assert parts == [[s[0]] + rest[0]];
      } else {
        assert parts == [[s[0]] + rest[0]] + rest[1..];
        assert parts[1..] == rest[1..];
        assert Join([c], parts) == ([s[0]] + rest[0]) + [c] + Join([c], rest[1..]);
        assert Join([c], rest) == rest[0] + [c] + Join([c], rest[1..]);
      }
    }
  }

  /** No piece of a split holds the separator. */
  lemma {:induction false} SplitFree(c: char, s: string)
    ensures forall i :: 0 <= i < |Split(c, s)| ==> c !in Split(c, s)[i]
    decreases |s|
  {
    if |s| > 0 {
      var rest := Split(c, s[1..]);
      SplitFree(c, s[1..]);
      var parts := Split(c, s);
      if s[0] == c {
        forall i | 0 < i < |parts| ensures c !in parts[i] {
          assert parts[i] == rest[i - 1];
        }
      } else {
        forall i | 0 < i < |parts| ensures c !in parts[i] {
          assert parts[i] == rest[i];
        }
      }
    }
  }

  /** A block of text read back line by line: the opening line, the body
      lines (one empty line for an empty body) and the closing line. */
  lemma BlockLines(open: string, lines: seq<string>, close: string)
    requires '\n' !in open && '\n' !in close
    requires forall i :: 0 <= i < |lines| ==> '\n' !in lines[i]
    ensures Split('\n', open + "\n" + Join("\n", lines) + "\n" + close)
      == [open] + (if |lines| == 0 then [""] else lines) + [close]
  {
    var all := [open] + (if |lines| == 0 then [""] else lines) + [close];
    BlockJoin(open, lines, close);
    BlockFree(open, lines, close);
    SplitJoin('\n', all);
  }

  /** The block is the join of its lines. */
  lemma BlockJoin(open: string, lines: seq<string>, close: string)
    ensures Join("\n", [open] + (if |lines| == 0 then [""] else lines) + [close])
      == open + "\n" + Join("\n", lines) + "\n" + close
  {
    var body := if |lines| == 0 then [""] else lines;
    assert Join("\n", body) == Join("\n", lines);
    JoinAppend("\n", [open], body);
    JoinAppend("\n", [open] + body, [close]);
  }

  /** No line of the block holds a line break. */
  lemma BlockFree(open: string, lines: seq<string>, close: string)
    requires '\n' !in open && '\n' !in close
    requires forall i :: 0 <= i < |lines| ==> '\n' !in lines[i]
    ensures var all := [open] + (if |lines| == 0 then [""] else lines) + [close];
      forall i :: 0 <= i < |all| ==> '\n' !in all[i]
  {
    var all := [open] + (if |lines| == 0 then [""] else lines) + [close];
    forall i | 0 <= i < |all| ensures '\n' !in all[i] {
      if 0 < i < |all| - 1 && |lines| > 0 {
        assert all[i] == lines[i - 1];
      }
    }
  }

  lemma {:induction false} JoinExcludes(c: char, sep: string, parts: seq<string>)
    requires c !in sep
    requires forall i :: 0 <= i < |parts| ==> c !in parts[i]
    ensures c !in Join(sep, parts)
  {
    if |parts| > 1 {
      JoinExcludes(c, sep, parts[1..]);
    }
  }

  lemma {:induction false} JoinStartsWith(sep: string, parts: seq<string>)
    requires |parts| > 0
    ensures StartsWith(Join(sep, parts), parts[0])
  {
    if |parts| > 1 {
      assert Join(sep, parts) == parts[0] + (sep + Join(sep, parts[1..]));
    }
  }
}
