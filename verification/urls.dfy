/** Listing links: Python's `str.split` on one separator character, and the
    canonical link a record stores (the URL cut at its first '?'). */
module Urls {

  /** Python's `sep.join(parts)` for a one-character separator. */
  function Join(parts: seq<string>, sep: char): string
    decreases |parts|
  {
    if |parts| == 0 then ""
    else if |parts| == 1 then parts[0]
    else parts[0] + [sep] + Join(parts[1..], sep)
  }

  /** Python's `s.split(sep)` for a one-character separator: always at least one
      piece, no piece holds the separator, and joining the pieces gives `s` back. */
  function Split(s: string, sep: char): (parts: seq<string>)
    ensures |parts| >= 1
    ensures forall i :: 0 <= i < |parts| ==> sep !in parts[i]
    ensures Join(parts, sep) == s
    decreases |s|
  {
    if |s| == 0 then
      [""]
    else
      var rest := Split(s[1..], sep);
      if s[0] == sep then
        assert s == [sep] + s[1..];
        [""] + rest
      else
        var parts := [[s[0]] + rest[0]] + rest[1..];
        assert parts[1..] == rest[1..];
        assert s == [s[0]] + s[1..];
        parts
  }

  /** Text without the separator passes through `Split` as the head of the first piece. */
  lemma {:induction false} SplitPrefix(p: string, t: string, sep: char)
    requires sep !in p
    ensures Split(p + t, sep) == [p + Split(t, sep)[0]] + Split(t, sep)[1..]
    decreases |p|
  {
    var st := Split(t, sep);
    if |p| == 0 {
      assert p + t == t;
      assert p + st[0] == st[0];
      assert st == [st[0]] + st[1..];
    } else {
      assert (p + t)[1..] == p[1..] + t;
      SplitPrefix(p[1..], t, sep);
      var rest := Split(p[1..] + t, sep);
      assert rest[0] == p[1..] + st[0];
      assert rest[1..] == st[1..];
      assert [p[0]] + rest[0] == p + st[0];
    }
  }

  /** Splitting undoes joining whenever no piece holds the separator. */
  lemma {:induction false} SplitJoin(parts: seq<string>, sep: char)
    requires |parts| >= 1
    requires forall i :: 0 <= i < |parts| ==> sep !in parts[i]
    ensures Split(Join(parts, sep), sep) == parts
    decreases |parts|
  {
    if |parts| == 1 {
      SplitPrefix(parts[0], "", sep);
      assert parts[0] + "" == parts[0];
    } else {
      var tail := Join(parts[1..], sep);
      SplitJoin(parts[1..], sep);
      var after := Split([sep] + tail, sep);
      assert after == [""] + parts[1..] by {
        assert ([sep] + tail)[1..] == tail;
      }
      assert after[0] == "" && after[1..] == parts[1..];
      assert parts[0] + [sep] + tail == parts[0] + ([sep] + tail);
      SplitPrefix(parts[0], [sep] + tail, sep);
      assert parts[0] + "" == parts[0];
      assert parts == [parts[0]] + parts[1..];
    }
  }

  /** The canonical link of a listing URL, `url.split('?')[0]`: the part of the URL
      before its first '?', which is all of it when there is none. */
  function Canonical(url: string): (link: string)
    ensures '?' !in link
    ensures link <= url
    ensures |link| < |url| ==> url[|link|] == '?'
    ensures '?' !in url ==> link == url
  {
    var parts := Split(url, '?');
    assert |parts| > 1 ==> url == parts[0] + ['?'] + Join(parts[1..], '?');
    parts[0]
  }

  /** Being a prefix of `url` free of '?' that stops at the end or at a '?' pins the
      prefix down: it is exactly the canonical link. */
  lemma CanonicalUnique(url: string, p: string)
    requires p <= url && '?' !in p
    requires |p| == |url| || url[|p|] == '?'
    ensures p == Canonical(url)
  {
  }

  /** Canonicalising twice changes nothing. */
  lemma CanonicalIdempotent(url: string)
    ensures Canonical(Canonical(url)) == Canonical(url)
  {
  }
}
