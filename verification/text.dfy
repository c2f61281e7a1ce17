/** The handful of Python `str` operations the entry points rely on:
    `isspace`, `strip()`, `split(sep)`, `sep.join(parts)` and
    `replace("\\n", "\n")`, each with the property that pins it down. */
module Text {

  /** Python's `str.isspace()`, which is also what `\s` matches in a `str`
      regular expression and what a bare `strip()` removes. */
  predicate IsSpace(c: char) {
    || ('\t' <= c <= '\r')
    || ('\U{1C}' <= c <= '\U{1F}')
    || c == ' '
    || c == '\U{85}'
    || c == '\U{A0}'
    || c == '\U{1680}'
    || ('\U{2000}' <= c <= '\U{200A}')
    || c == '\U{2028}'
    || c == '\U{2029}'
    || c == '\U{202F}'
    || c == '\U{205F}'
    || c == '\U{3000}'
  }

  predicate AllSpace(s: string) {
    forall k :: 0 <= k < |s| ==> IsSpace(s[k])
  }

  /** Length of the longest all-whitespace prefix of `s`. */
  function LeadingSpaces(s: string): (n: nat)
    ensures n <= |s|
    ensures AllSpace(s[..n])
    ensures n < |s| ==> !IsSpace(s[n])
  {
    if s == [] || !IsSpace(s[0]) then 0 else 1 + LeadingSpaces(s[1..])
  }

  /** Length of the longest all-whitespace suffix of `s`. */
  function TrailingSpaces(s: string): (n: nat)
    ensures n <= |s|
    ensures AllSpace(s[|s| - n..])
    ensures n < |s| ==> !IsSpace(s[|s| - n - 1])
  {
    if s == [] || !IsSpace(s[|s| - 1]) then 0 else 1 + TrailingSpaces(s[..|s| - 1])
  }

  /** A string that `strip()` leaves alone: empty, or not starting or ending
      with whitespace. */
  predicate Stripped(s: string) {
    s == [] || (!IsSpace(s[0]) && !IsSpace(s[|s| - 1]))
  }

  /** Python's `s.strip()`: `s` without its leading and trailing whitespace.
      The result is the slice of `s` that starts after the leading blanks and
      leaves only blanks after it. */
  function Strip(s: string): (r: string)
    ensures Stripped(r)
    ensures r == [] <==> AllSpace(s)
    ensures LeadingSpaces(s) + |r| <= |s|
    ensures r == s[LeadingSpaces(s)..LeadingSpaces(s) + |r|]
    ensures AllSpace(s[LeadingSpaces(s) + |r|..])
  {
    var lead := LeadingSpaces(s);
    var rest := s[lead..];
    var r := rest[..|rest| - TrailingSpaces(rest)];
    StripShape(s, lead, rest, r);
    r
  }

  /** The facts `Strip` promises, for the slice it takes. */
  lemma StripShape(s: string, lead: nat, rest: string, r: string)
    requires lead == LeadingSpaces(s) && rest == s[lead..]
    requires r == rest[..|rest| - TrailingSpaces(rest)]
    ensures lead + |r| <= |s| && r == s[lead..lead + |r|]
    ensures AllSpace(s[lead + |r|..])
    ensures Stripped(r)
    ensures r == [] <==> AllSpace(s)
  {
    assert s[lead + |r|..] == rest[|r|..];
    StripEnds(s, lead, rest, r);
    StripEmpty(s, lead, rest, r);
  }

  lemma StripEnds(s: string, lead: nat, rest: string, r: string)
    requires lead == LeadingSpaces(s) && rest == s[lead..]
    requires r == rest[..|rest| - TrailingSpaces(rest)]
    ensures Stripped(r)
  {
    if r != [] {
      assert r[0] == s[lead];
      assert r[|r| - 1] == rest[|rest| - TrailingSpaces(rest) - 1];
    }
  }

  lemma StripEmpty(s: string, lead: nat, rest: string, r: string)
    requires lead == LeadingSpaces(s) && rest == s[lead..]
    requires r == rest[..|rest| - TrailingSpaces(rest)]
    ensures r == [] <==> AllSpace(s)
  {
    if r == [] {
      assert TrailingSpaces(rest) == |rest|;
      assert rest == rest[|rest| - TrailingSpaces(rest)..];
      assert lead == |s|;
      assert s[..lead] == s;
    } else {
      assert r[0] == s[lead];
    }
  }

  /** `strip()` only removes characters. */
  lemma StripKeeps(s: string, c: char)
    requires c !in s
    ensures c !in Strip(s)
  {
    var r := Strip(s);
    var i := LeadingSpaces(s);
    assert forall k :: 0 <= k < |r| ==> r[k] == s[i + k];
  }

  lemma {:induction false} LeadingSpacesOf(a: string, b: string)
    requires AllSpace(a)
    requires b == [] || !IsSpace(b[0])
    ensures LeadingSpaces(a + b) == |a|
    decreases |a|
  {
    if a == [] {
      assert a + b == b;
    } else {
      LeadingSpacesOf(a[1..], b);
      assert (a + b)[1..] == a[1..] + b;
    }
  }

  lemma {:induction false} TrailingSpacesOf(b: string, a: string)
    requires AllSpace(a)
    requires b == [] || !IsSpace(b[|b| - 1])
    ensures TrailingSpaces(b + a) == |a|
    decreases |a|
  {
    if a == [] {
      assert b + a == b;
    } else {
      TrailingSpacesOf(b, a[..|a| - 1]);
      assert (b + a)[..|b + a| - 1] == b + a[..|a| - 1];
    }
  }

  /** `strip()` recovers the core of any whitespace-padded stripped string;
      with `Strip`'s own contract this says the stripped core is unique. */
  lemma StripPadded(pre: string, core: string, post: string)
    requires AllSpace(pre) && AllSpace(post) && Stripped(core)
    ensures Strip(pre + core + post) == core
  {
    var s := pre + core + post;
    if core == [] {
      assert AllSpace(s) by {
        forall k | 0 <= k < |s| ensures IsSpace(s[k]) {
          if k < |pre| { assert s[k] == pre[k]; } else { assert s[k] == post[k - |pre|]; }
        }
      }
    } else {
      LeadingSpacesOf(pre, core + post);
      assert s == pre + (core + post);
      assert s[|pre|..] == core + post;
      TrailingSpacesOf(core, post);
      assert (core + post)[..|core|] == core;
    }
  }

  lemma StripIdempotent(s: string)
    ensures Strip(Strip(s)) == Strip(s)
  {
    StripPadded([], Strip(s), []);
    assert [] + Strip(s) + [] == Strip(s);
  }

  /** Python's `sep.join(parts)`. */
  function Join(parts: seq<string>, sep: string): (r: string)
    ensures |parts| == 0 ==> r == []
    ensures |parts| == 1 ==> r == parts[0]
    ensures |parts| >= 2 ==> parts[0] + sep <= r
  {
    if |parts| == 0 then []
    else if |parts| == 1 then parts[0]
    else parts[0] + sep + Join(parts[1..], sep)
  }

  /** Joining two non-empty lists is joining each and putting one separator
      between the results. */
  lemma {:induction false} JoinAppend(a: seq<string>, b: seq<string>, sep: string)
    requires |a| >= 1 && |b| >= 1
    ensures Join(a + b, sep) == Join(a, sep) + sep + Join(b, sep)
    decreases |a|
  {
    if |a| == 1 {
      assert (a + b)[1..] == b;
    } else {
      JoinAppend(a[1..], b, sep);
      assert (a + b)[1..] == a[1..] + b;
    }
  }

  lemma JoinNonEmpty(parts: seq<string>, sep: string)
    requires |parts| >= 1 && parts[0] != []
    ensures Join(parts, sep) != []
  {
  }

  /** Python's `s.split(sep)` for a one-character separator: the maximal
      separator-free pieces, empty ones included, in order. */
  function Split(s: string, sep: char): (pieces: seq<string>)
    ensures |pieces| >= 1
    ensures forall i :: 0 <= i < |pieces| ==> sep !in pieces[i]
    ensures Join(pieces, [sep]) == s
  {
    if s == [] then [[]]
    else
      var rest := Split(s[1..], sep);
      if s[0] == sep then
        assert Join([[]] + rest, [sep]) == [] + [sep] + Join(rest, [sep]) by {
          assert ([[]] + rest)[1..] == rest;
        }
        [[]] + rest
      else
        var pieces := [[s[0]] + rest[0]] + rest[1..];
        assert Join(pieces, [sep]) == [s[0]] + Join(rest, [sep]) by {
          if |rest| > 1 {
            assert pieces[1..] == rest[1..];
          }
        }
        pieces
  }

  lemma {:induction false} SplitPrefix(p: string, t: string, sep: char)
    requires sep !in p
    ensures Split(p + t, sep) == [p + Split(t, sep)[0]] + Split(t, sep)[1..]
    decreases |p|
  {
    var h, tl := Split(t, sep)[0], Split(t, sep)[1..];
    if p == [] {
      assert p + t == t;
      assert p + h == h;
      assert Split(t, sep) == [h] + tl;
    } else {
      var s := p + t;
      assert s[0] == p[0] && s[0] != sep;
      assert s[1..] == p[1..] + t;
      SplitPrefix(p[1..], t, sep);
      var rest := Split(s[1..], sep);
      assert rest[0] == p[1..] + h && rest[1..] == tl;
      assert Split(s, sep) == [[s[0]] + rest[0]] + rest[1..];
      assert [p[0]] + (p[1..] + h) == p + h;
    }
  }

  /** A character that occurs in no part and not in the separator does not
      occur in the joined text. */
  lemma {:induction false} JoinAvoids(parts: seq<string>, sep: string, c: char)
    requires c !in sep
    requires forall i :: 0 <= i < |parts| ==> c !in parts[i]
    ensures c !in Join(parts, sep)
    decreases |parts|
  {
    if |parts| > 1 {
      JoinAvoids(parts[1..], sep, c);
    }
  }

  /** Splitting undoes joining, provided no part contains the separator. */
  lemma {:induction false} SplitJoin(parts: seq<string>, sep: char)
    requires |parts| >= 1
    requires forall i :: 0 <= i < |parts| ==> sep !in parts[i]
    ensures Split(Join(parts, [sep]), sep) == parts
    decreases |parts|
  {
    if |parts| == 1 {
      SplitPrefix(parts[0], [], sep);
      assert parts[0] + [] == parts[0];
    } else {
      SplitJoin(parts[1..], sep);
      var t := [sep] + Join(parts[1..], [sep]);
      assert Join(parts, [sep]) == parts[0] + t;
      SplitPrefix(parts[0], t, sep);
      assert Split(t, sep) == [[]] + parts[1..];
      assert parts[0] + [] == parts[0];
      assert [parts[0]] + parts[1..] == parts;
    }
  }

  /** No backslash immediately followed by `n` anywhere in `s`. */
  predicate NoEscapedNewline(s: string) {
    forall k :: 0 <= k < |s| - 1 ==> !(s[k] == '\\' && s[k + 1] == 'n')
  }

  /** Python's `s.replace("\\n", "\n")`: every two-character sequence
      backslash-`n` becomes a newline, scanning left to right without overlap. */
  function UnescapeNewlines(s: string): (r: string)
    ensures |r| <= |s|
    ensures NoEscapedNewline(r)
    ensures r == [] <==> s == []
  {
    if |s| >= 2 && s[0] == '\\' && s[1] == 'n' then ['\n'] + UnescapeNewlines(s[2..])
    else if s == [] then []
    else
      var tail := UnescapeNewlines(s[1..]);
      assert tail != [] && s[0] == '\\' ==> tail[0] != 'n' by {
        if tail != [] && s[0] == '\\' {
          var t := s[1..];
          if !(|t| >= 2 && t[0] == '\\' && t[1] == 'n') {
            assert tail[0] == t[0];
          }
        }
      }
      [s[0]] + tail
  }

  /** The inverse direction: every newline written as backslash-`n`. */
  function EscapeNewlines(s: string): (r: string)
    ensures |r| >= |s|
  {
    if s == [] then []
    else (if s[0] == '\n' then ['\\', 'n'] else [s[0]]) + EscapeNewlines(s[1..])
  }

  /** Unescaping recovers any text that had its newlines escaped, as long as
      the text did not already contain a literal backslash-`n`. */
  lemma {:induction false} UnescapeEscape(s: string)
    requires NoEscapedNewline(s)
    ensures UnescapeNewlines(EscapeNewlines(s)) == s
    decreases |s|
  {
    if s != [] {
      var e := EscapeNewlines(s[1..]);
      assert NoEscapedNewline(s[1..]) by {
        forall k | 0 <= k < |s[1..]| - 1 ensures !(s[1..][k] == '\\' && s[1..][k + 1] == 'n') {
          assert s[1..][k] == s[k + 1] && s[1..][k + 1] == s[k + 2];
        }
      }
      UnescapeEscape(s[1..]);
      if s[0] == '\n' {
        assert (['\\', 'n'] + e)[2..] == e;
      } else {
        assert !(s[0] == '\\' && e != [] && e[0] == 'n') by {
          if e != [] {
            if s[1] == '\n' {
              assert e[0] == '\\';
            } else {
              assert e[0] == s[1];
            }
          }
        }
        assert ([s[0]] + e)[1..] == e;
      }
    }
  }

  /** Text with no literal backslash-`n` passes through unchanged. */
  lemma {:induction false} UnescapeIdentity(s: string)
    requires NoEscapedNewline(s)
    ensures UnescapeNewlines(s) == s
    decreases |s|
  {
    if s != [] {
      assert NoEscapedNewline(s[1..]) by {
        forall k | 0 <= k < |s[1..]| - 1 ensures !(s[1..][k] == '\\' && s[1..][k + 1] == 'n') {
          assert s[1..][k] == s[k + 1] && s[1..][k + 1] == s[k + 2];
        }
      }
      UnescapeIdentity(s[1..]);
    }
  }

  lemma NoEscapedNewlineTail(a: string)
    requires a != [] && NoEscapedNewline(a)
    ensures NoEscapedNewline(a[1..])
  {
    forall k | 0 <= k < |a[1..]| - 1 ensures !(a[1..][k] == '\\' && a[1..][k + 1] == 'n') {
      assert a[1..][k] == a[k + 1] && a[1..][k + 1] == a[k + 2];
    }
  }

  /** The first backslash-`n` of a text becomes a newline and the scan
      resumes after it: with `UnescapeIdentity` this fixes the result on
      every input. */
  lemma {:induction false} UnescapeSplice(a: string, b: string)
    requires NoEscapedNewline(a)
    ensures UnescapeNewlines(a + ['\\', 'n'] + b) == a + ['\n'] + UnescapeNewlines(b)
    decreases |a|
  {
    var s := a + ['\\', 'n'] + b;
    if a == [] {
      assert s[2..] == b;
    } else {
      NoEscapedNewlineTail(a);
      UnescapeSplice(a[1..], b);
      assert !(a[0] == '\\' && a[1..] != [] && a[1..][0] == 'n');
      SpliceStep(a[0], a[1..], b);
      assert [a[0]] + a[1..] == a;
    }
  }

  /** One character in front of a spliced text. */
  lemma SpliceStep(c: char, rest: string, b: string)
    requires !(c == '\\' && rest != [] && rest[0] == 'n')
    requires UnescapeNewlines(rest + ['\\', 'n'] + b) == rest + ['\n'] + UnescapeNewlines(b)
    ensures UnescapeNewlines([c] + rest + ['\\', 'n'] + b) == [c] + rest + ['\n'] + UnescapeNewlines(b)
  {
    var t := rest + ['\\', 'n'] + b;
    assert t[0] == (if rest != [] then rest[0] else '\\');
    UnescapeCons(c, t);
    assert [c] + rest + ['\\', 'n'] + b == [c] + t;
  }

  /** A character that does not start a backslash-`n` is copied as is. */
  lemma UnescapeCons(c: char, t: string)
    requires !(c == '\\' && t != [] && t[0] == 'n')
    ensures UnescapeNewlines([c] + t) == [c] + UnescapeNewlines(t)
  {
    assert ([c] + t)[1..] == t;
  }

  lemma UnescapeIdempotent(s: string)
    ensures UnescapeNewlines(UnescapeNewlines(s)) == UnescapeNewlines(s)
  {
    UnescapeIdentity(UnescapeNewlines(s));
  }
}
