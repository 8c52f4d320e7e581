/**
 * The post-processing of a generated reply in `get_chatbot_response`:
 * `text.replace("•", "").replace("- ", "").strip()`.
 * Each stage only deletes characters; the stages run in that order.
 */
module Cleaning {
  import opened Text

  const Bullet: char := '\U{2022}'

  /** The two-character pattern of the second `replace`. */
  const DashSpace: string := "- "

  predicate DashSpaceAt(s: string, i: int)
  {
    0 <= i && i + 1 < |s| && s[i] == '-' && s[i + 1] == ' '
  }

  /** `s` holds no occurrence of `"- "`. */
  predicate NoDashSpace(s: string)
  {
    forall i | 0 <= i < |s| :: !DashSpaceAt(s, i)
  }

  // ---------------------------------------------------------------------------
  // Stage 1: delete every bullet

  function RemoveBullets(s: string): (r: string)
    ensures Bullet !in r
    ensures |r| <= |s|
    decreases |s|
  {
    if s == [] then []
    else (if s[0] == Bullet then [] else [s[0]]) + RemoveBullets(s[1..])
  }

  /** Stage 1 keeps every other character, as many times as it occurs, in order. */
  lemma {:induction false} RemoveBulletsKeepsOthers(s: string)
    ensures IsSubsequence(RemoveBullets(s), s)
    ensures forall c | c != Bullet :: multiset(RemoveBullets(s))[c] == multiset(s)[c]
    decreases |s|
  {
    if s != [] {
      RemoveBulletsKeepsOthers(s[1..]);
      assert s == [s[0]] + s[1..];
      var r := RemoveBullets(s);
      if s[0] != Bullet {
        assert r[0] == s[0] && r[1..] == RemoveBullets(s[1..]);
      } else {
        assert r == RemoveBullets(s[1..]);
        assert IsSubsequence(r, s[1..]);
      }
    }
  }

  lemma {:induction false} RemoveBulletsIdentity(s: string)
    requires Bullet !in s
    ensures RemoveBullets(s) == s
    decreases |s|
  {
    if s != [] {
      assert s[0] != Bullet;
      assert Bullet !in s[1..] by {
        forall k | 0 <= k < |s[1..]| ensures s[1..][k] != Bullet {
          assert s[1..][k] == s[k + 1];
        }
      }
      RemoveBulletsIdentity(s[1..]);
    }
  }

  // ---------------------------------------------------------------------------
  // Stage 2: delete "- " in one left-to-right pass, as Python's str.replace does

  function RemoveDashSpace(s: string): (r: string)
    ensures |r| <= |s|
    decreases |s|
  {
    if DashSpaceAt(s, 0) then RemoveDashSpace(s[2..])
    else if s == [] then []
    else [s[0]] + RemoveDashSpace(s[1..])
  }

  lemma {:induction false} RemoveDashSpaceIsSubsequence(s: string)
    ensures IsSubsequence(RemoveDashSpace(s), s)
    decreases |s|
  {
    if DashSpaceAt(s, 0) {
      RemoveDashSpaceIsSubsequence(s[2..]);
      assert s[2..] == s[1..][1..];
      assert IsSubsequence(RemoveDashSpace(s), s[1..]);
    } else if s != [] {
      RemoveDashSpaceIsSubsequence(s[1..]);
      var r := RemoveDashSpace(s);
      assert r[0] == s[0] && r[1..] == RemoveDashSpace(s[1..]);
    }
  }

  /**
   * A prefix free of `"- "` passes through the scan untouched, as long as it
   * cannot form `"- "` with the first character that follows it.
   */
  lemma {:induction false} RemoveDashSpacePrefix(p: string, rest: string)
    requires NoDashSpace(p)
    requires rest == [] || rest[0] != ' '
    ensures RemoveDashSpace(p + rest) == p + RemoveDashSpace(rest)
    decreases |p|
  {
    if p != [] {
      var s := p + rest;
      assert !DashSpaceAt(s, 0) by {
        if |p| >= 2 {
          assert !DashSpaceAt(p, 0);
        }
      }
      assert s[1..] == p[1..] + rest;
      assert NoDashSpace(p[1..]) by {
        forall i | 0 <= i < |p[1..]| ensures !DashSpaceAt(p[1..], i) {
          assert !DashSpaceAt(p, i + 1);
        }
      }
      RemoveDashSpacePrefix(p[1..], rest);
    } else {
      assert p + rest == rest;
    }
  }

  /** Text without `"- "` is left unchanged by the second stage. */
  lemma RemoveDashSpaceIdentity(s: string)
    requires NoDashSpace(s)
    ensures RemoveDashSpace(s) == s
  {
    RemoveDashSpacePrefix(s, []);
    assert s + [] == s;
  }

  /** Python's `sep.join(pieces)` with `sep = "- "`. */
  function Join(pieces: seq<string>): string
  {
    if |pieces| == 0 then []
    else if |pieces| == 1 then pieces[0]
    else pieces[0] + DashSpace + Join(pieces[1..])
  }

  /** Python's `"".join(pieces)`. */
  function Concat(pieces: seq<string>): string
  {
    if pieces == [] then [] else pieces[0] + Concat(pieces[1..])
  }

  /** Putting a character in front of the first piece puts it in front of the joined text. */
  lemma {:induction false} JoinExtendFirst(c: char, pieces: seq<string>)
    requires |pieces| >= 1
    ensures Join([[c] + pieces[0]] + pieces[1..]) == [c] + Join(pieces)
  {
    var extended := [[c] + pieces[0]] + pieces[1..];
    if |pieces| == 1 {
      assert extended == [[c] + pieces[0]];
    } else {
      assert extended[0] == [c] + pieces[0] && extended[1..] == pieces[1..];
      var rest := Join(pieces[1..]);
      assert Join(extended) == ([c] + pieces[0]) + DashSpace + rest;
      assert Join(pieces) == pieces[0] + DashSpace + rest;
    }
  }

  /** A character in front of a `"- "`-free prefix of `s` adds no `"- "` unless `c` starts one with `s`. */
  lemma ConsNoDashSpace(c: char, p: string, s: string)
    requires NoDashSpace(p) && p <= s
    requires !DashSpaceAt([c] + s, 0)
    ensures NoDashSpace([c] + p)
  {
    var first := [c] + p;
    forall i | 0 <= i < |first| ensures !DashSpaceAt(first, i) {
      if i == 0 && |first| >= 2 {
        assert first[1] == s[0] && ([c] + s)[1] == s[0];
      } else if i > 0 {
        assert !DashSpaceAt(p, i - 1);
      }
    }
  }

  /**
   * Python's `s.split("- ")`: the pieces between the occurrences found
   * left to right. Joining them back gives `s`, and no piece holds the separator.
   */
  function Split(s: string): (pieces: seq<string>)
    ensures |pieces| >= 1 && pieces[0] <= s
    ensures Join(pieces) == s
    ensures forall i | 0 <= i < |pieces| :: NoDashSpace(pieces[i])
    decreases |s|
  {
    if s == [] then [[]]
    else if DashSpaceAt(s, 0) then
      var tail := Split(s[2..]);
      assert s == DashSpace + s[2..];
      [[]] + tail
    else
      var tail := Split(s[1..]);
      assert s == [s[0]] + s[1..];
      ConsNoDashSpace(s[0], tail[0], s[1..]);
      JoinExtendFirst(s[0], tail);
      var pieces := [[s[0]] + tail[0]] + tail[1..];
      assert forall i | 1 <= i < |pieces| :: pieces[i] == tail[i];
      pieces
  }

  /** Removing `"- "` from the joined pieces leaves the pieces run together. */
  lemma {:induction false} RemoveDashSpaceJoin(pieces: seq<string>)
    requires forall i | 0 <= i < |pieces| :: NoDashSpace(pieces[i])
    ensures RemoveDashSpace(Join(pieces)) == Concat(pieces)
    decreases |pieces|
  {
    if |pieces| == 1 {
      RemoveDashSpaceIdentity(pieces[0]);
      assert Concat(pieces) == pieces[0] + Concat([]);
    } else if |pieces| >= 2 {
      var rest := Join(pieces[1..]);
      assert Join(pieces) == pieces[0] + (DashSpace + rest);
      RemoveDashSpacePrefix(pieces[0], DashSpace + rest);
      assert DashSpaceAt(DashSpace + rest, 0);
      assert (DashSpace + rest)[2..] == rest;
      RemoveDashSpaceJoin(pieces[1..]);
    }
  }

  /** The single pass equals Python's `"".join(s.split("- "))`. */
  lemma RemoveDashSpaceIsSplitConcat(s: string)
    ensures RemoveDashSpace(s) == Concat(Split(s))
  {
    RemoveDashSpaceJoin(Split(s));
  }

  /** One pass can create a new `"- "`: the output is not free of the pattern. */
  lemma RemoveDashSpaceCanCreatePattern()
    ensures RemoveDashSpace("--  x") == "- x"
    ensures !NoDashSpace(RemoveDashSpace("--  x"))
  {
    var s := "--  x";
    assert !DashSpaceAt(s, 0);
    assert s[1..] == "-  x" && DashSpaceAt(s[1..], 0);
    assert s[1..][2..] == " x" && !DashSpaceAt(" x", 0);
    assert " x"[1..] == "x" && !DashSpaceAt("x", 0);
    assert "x"[1..] == [];
    assert DashSpaceAt("- x", 0);
  }

  // ---------------------------------------------------------------------------
  // Stage 3: Python's str.strip() with no argument

  /** The number of whitespace characters `s` starts with. */
  function LeadingSpace(s: string): (n: nat)
    ensures n <= |s| && AllSpace(s[..n])
    ensures n == |s| || !IsSpace(s[n])
    decreases |s|
  {
    if s != [] && IsSpace(s[0]) then
      var n := 1 + LeadingSpace(s[1..]);
      assert s[..n] == [s[0]] + s[1..][..n - 1];
      n
    else 0
  }

  /** The number of whitespace characters `s` ends with. */
  function TrailingSpace(s: string): (n: nat)
    ensures n <= |s| && AllSpace(s[|s| - n..])
    ensures n == |s| || !IsSpace(s[|s| - n - 1])
    decreases |s|
  {
    if s != [] && IsSpace(s[|s| - 1]) then
      var n := 1 + TrailingSpace(s[..|s| - 1]);
      assert s[|s| - n..] == s[..|s| - 1][|s| - n..] + [s[|s| - 1]];
      n
    else 0
  }

  /**
   * The result neither starts nor ends with whitespace; it is the slice of `s`
   * that begins right after the leading whitespace, and everything after it is
   * whitespace.
   */
  function Strip(s: string): (r: string)
    ensures IsStripped(r)
    ensures LeadingSpace(s) + |r| <= |s|
    ensures r == s[LeadingSpace(s)..LeadingSpace(s) + |r|]
    ensures AllSpace(s[LeadingSpace(s) + |r|..])
  {
    var i := LeadingSpace(s);
    var t := s[i..];
    var r := t[..|t| - TrailingSpace(t)];
    assert s[i + |r|..] == t[|t| - TrailingSpace(t)..];
    r
  }

  lemma StripIsSubsequence(s: string)
    ensures IsSubsequence(Strip(s), s)
  {
    var r := Strip(s);
    SliceIsSubsequence(s, LeadingSpace(s), LeadingSpace(s) + |r|);
  }

  lemma StripIdentity(s: string)
    requires IsStripped(s)
    ensures Strip(s) == s
  {
    assert LeadingSpace(s) == 0;
    assert TrailingSpace(s) == 0;
  }

  /** Stripping twice is stripping once. */
  lemma StripIdempotent(s: string)
    ensures Strip(Strip(s)) == Strip(s)
  {
    StripIdentity(Strip(s));
  }

  // ---------------------------------------------------------------------------
  // The whole cleaning expression

  /**
   * The cleaned reply holds no bullet, has no surrounding whitespace, and is the
   * input with some characters deleted.
   */
  function Clean(text: string): (r: string)
    ensures Bullet !in r
    ensures IsStripped(r)
    ensures IsSubsequence(r, text) && |r| <= |text|
  {
    var noBullets := RemoveBullets(text);
    var noDashes := RemoveDashSpace(noBullets);
    var r := Strip(noDashes);
    RemoveBulletsKeepsOthers(text);
    RemoveDashSpaceIsSubsequence(noBullets);
    StripIsSubsequence(noDashes);
    SubsequenceTransitive(r, noDashes, noBullets);
    SubsequenceTransitive(r, noBullets, text);
    SubsequenceElements(r, noBullets);
    SubsequenceLength(r, text);
    r
  }

  /** Text that is already clean passes through unchanged. */
  lemma CleanIdentity(text: string)
    requires Bullet !in text && NoDashSpace(text) && IsStripped(text)
    ensures Clean(text) == text
  {
    RemoveBulletsIdentity(text);
    RemoveDashSpaceIdentity(text);
    StripIdentity(text);
  }

  /**
   * Cleaning does not remove every `"- "`, and it is not idempotent:
   * a dash before the removed pattern joins the space after it.
   */
  lemma CleanCanLeaveDashSpace()
    ensures Clean("--  x") == "- x"
    ensures !NoDashSpace(Clean("--  x"))
    ensures Clean(Clean("--  x")) == "x"
  {
    RemoveBulletsIdentity("--  x");
    RemoveDashSpaceCanCreatePattern();
    StripIdentity("- x");
    RemoveBulletsIdentity("- x");
    var s := "- x";
    assert DashSpaceAt(s, 0) && s[2..] == "x";
    assert !DashSpaceAt("x", 0) && "x"[1..] == [];
    assert RemoveDashSpace("- x") == "x";
    StripIdentity("x");
  }
}
