/** The few `java.lang.String` operations the upload rules rely on. */
module JavaText {

  /** `Character.toLowerCase` restricted to ASCII letters. */
  function LowerAscii(c: char): char {
    if 'A' <= c <= 'Z' then (c as int + 32) as char else c
  }

  /** `String.toLowerCase()`, restricted to ASCII letters. */
  function ToLowerCase(s: string): string {
    seq(|s|, k requires 0 <= k < |s| => LowerAscii(s[k]))
  }

  /** `String.endsWith(suffix)`. */
  predicate EndsWith(s: string, suffix: string) {
    |suffix| <= |s| && s[|s| - |suffix|..] == suffix
  }

  /** Every '.'-separated segment of `s`, empty ones included (`split` with a negative limit). */
  function Segments(s: string): (r: seq<string>)
    ensures |r| >= 1
    ensures forall k :: 0 <= k < |r| ==> '.' !in r[k]
  {
    if s == [] then [""]
    else
      var rest := Segments(s[1..]);
      if s[0] == '.' then [""] + rest
      else [[s[0]] + rest[0]] + rest[1..]
  }

  /** `String.join` with a one-character separator. */
  function Join(parts: seq<string>, sep: char): string {
    if |parts| == 0 then ""
    else if |parts| == 1 then parts[0]
    else parts[0] + [sep] + Join(parts[1..], sep)
  }

  /** Joining the segments with '.' gives back the string. */
  lemma {:induction false} JoinSegments(s: string)
    ensures Join(Segments(s), '.') == s
  {
    if s != [] {
      JoinSegments(s[1..]);
      var rest := Segments(s[1..]);
      if s[0] == '.' {
        assert Join([""] + rest, '.') == "" + ['.'] + Join(rest, '.');
      } else {
        var r := [[s[0]] + rest[0]] + rest[1..];
        if |rest| == 1 {
          assert Join(r, '.') == [s[0]] + rest[0];
        } else {
          assert Join(rest, '.') == rest[0] + ['.'] + Join(rest[1..], '.');
          assert r[1..] == rest[1..];
          assert Join(r, '.') == ([s[0]] + rest[0]) + ['.'] + Join(rest[1..], '.');
        }
      }
      assert s == [s[0]] + s[1..];
    }
  }

  /** The last segment is empty exactly when the string is empty or ends with '.'. */
  lemma {:induction false} LastSegmentEmpty(s: string)
    ensures var r := Segments(s); r[|r| - 1] == "" <==> (s == [] || s[|s| - 1] == '.')
  {
    if s != [] {
      LastSegmentEmpty(s[1..]);
    }
  }

  /** Drops the empty strings at the end of `parts`, as `String.split` does. */
  function DropTrailingEmpty(parts: seq<string>): (r: seq<string>)
    ensures |r| <= |parts| && r == parts[..|r|]
    ensures |r| > 0 ==> r[|r| - 1] != ""
    ensures forall k :: |r| <= k < |parts| ==> parts[k] == ""
  {
    if parts == [] then []
    else if parts[|parts| - 1] == "" then DropTrailingEmpty(parts[..|parts| - 1])
    else parts
  }

  /** `s.split("\\.")`: the segments without trailing empty ones, or `[s]` when `s` has no '.'. */
  function SplitOnDot(s: string): (r: seq<string>)
    ensures forall k :: 0 <= k < |r| ==> '.' !in r[k]
    ensures '.' !in s ==> r == [s]
  {
    if '.' !in s then [s] else DropTrailingEmpty(Segments(s))
  }

  /** For a name that does not end with '.', `split` loses nothing: joining gives the name back. */
  lemma SplitOnDotJoin(s: string)
    requires s == [] || s[|s| - 1] != '.'
    ensures Join(SplitOnDot(s), '.') == s
  {
    if '.' in s {
      LastSegmentEmpty(s);
      var segs := Segments(s);
      assert DropTrailingEmpty(segs) == segs;
      JoinSegments(s);
    }
  }
}
