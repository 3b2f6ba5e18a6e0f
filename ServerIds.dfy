/** Server identifiers as both resolvers read them.

    `NormalizeServerId` is the normalisation written identically in the
    select-box resolver and in the browser API client: everything up to
    and including the last `/server/` on the first line goes, then one
    trailing slash, and an input that this empties is kept as it was. */
module ServerIds {
  import opened Wrappers
  import opened Text

  const Mark: string := "/server/"

  /** Whether `Mark` occurs (case-insensitively) at position `i`. */
  predicate MarkAt(s: string, i: nat) {
    MatchesAt(s, Mark, i)
  }

  /** The length of the first line of `s`: the position of the first line
      terminator, or `|s|` when there is none. `.` cannot cross it, so a
      match of `^.*\/server\/` ends inside the first line. */
  function FirstLineEnd(s: string): (n: nat)
    ensures n <= |s|
    ensures forall i :: 0 <= i < n ==> !IsLineTerminator(s[i])
    ensures n < |s| ==> IsLineTerminator(s[n])
  {
    if s == [] || IsLineTerminator(s[0]) then 0 else 1 + FirstLineEnd(s[1..])
  }

  /** The start of the last occurrence of `Mark` lying wholly before
      position `limit`. */
  function LastMarkBefore(s: string, limit: nat): (r: Option<nat>)
    requires limit <= |s|
    ensures r.Some? ==> r.value + |Mark| <= limit && MarkAt(s, r.value)
    ensures r.Some? ==> forall j: nat :: r.value < j && j + |Mark| <= limit ==> !MarkAt(s, j)
    ensures r.None? ==> forall j: nat :: j + |Mark| <= limit ==> !MarkAt(s, j)
  {
    if limit < |Mark| then None
    else if MarkAt(s, limit - |Mark|) then Some(limit - |Mark|)
    else LastMarkBefore(s, limit - 1)
  }

  /** The first replacement: a greedy match that cannot cross a line
      terminator reaches the last `/server/` of the first line, and
      everything through it is removed. Without a `/server/` on the first
      line nothing is removed. */
  function StripThroughLastMark(s: string): (r: string)
    ensures |r| <= |s| && r == s[|s| - |r|..]
  {
    match LastMarkBefore(s, FirstLineEnd(s))
    case Some(i) => s[i + |Mark|..]
    case None => s
  }

  /** What the strip keeps, for every input: all of it when the first
      line has no `/server/`, and otherwise exactly what follows the last
      `/server/` lying within the first line. */
  lemma StripThroughLastMarkSpec(s: string)
    ensures (forall j: nat :: j + |Mark| <= FirstLineEnd(s) ==> !MarkAt(s, j)) ==> StripThroughLastMark(s) == s
    ensures forall i: nat ::
      (i + |Mark| <= FirstLineEnd(s) && MarkAt(s, i)
        && forall j: nat :: i < j && j + |Mark| <= FirstLineEnd(s) ==> !MarkAt(s, j))
      ==> StripThroughLastMark(s) == s[i + |Mark|..]
  {
    var n := FirstLineEnd(s);
    var last := LastMarkBefore(s, n);
    forall i: nat | i + |Mark| <= n && MarkAt(s, i) && (forall j: nat :: i < j && j + |Mark| <= n ==> !MarkAt(s, j))
      ensures StripThroughLastMark(s) == s[i + |Mark|..]
    {
      assert last.Some?;
      assert !(last.value < i) && !(i < last.value);
    }
  }

  /** The second replacement: one slash at the very end goes. */
  function DropTrailingSlash(s: string): (r: string)
    ensures s != [] && s[|s| - 1] == '/' ==> s == r + "/"
    ensures !(s != [] && s[|s| - 1] == '/') ==> r == s
  {
    if s != [] && s[|s| - 1] == '/' then s[..|s| - 1] else s
  }

  /** The identifier sent to `{apiBase}/server/{id}`; falls back to the raw
      value when stripping leaves nothing, so a non-empty input never
      becomes empty. */
  function NormalizeServerId(raw: string): (r: string)
    ensures r == [] <==> raw == []
    ensures |r| <= |raw|
  {
    var stripped := DropTrailingSlash(StripThroughLastMark(raw));
    if stripped == [] then raw else stripped
  }

  /** The fallback, for every input: when the strip leaves nothing or a
      lone slash the raw id is kept, and otherwise the result is the strip
      without its trailing slash, which is never empty. */
  lemma NormalizeServerIdSpec(raw: string)
    ensures var t := StripThroughLastMark(raw);
      (t == [] || t == "/") ==> NormalizeServerId(raw) == raw
    ensures var t := StripThroughLastMark(raw);
      !(t == [] || t == "/") ==> NormalizeServerId(raw) == DropTrailingSlash(t) && NormalizeServerId(raw) != []
  {
  }

  /** What a match of `Mark` at `j` says about the characters there. */
  lemma MarkShape(s: string, j: nat)
    requires j + |Mark| <= |s|
    ensures MarkAt(s, j) ==> s[j] == '/' && s[j + 7] == '/' && SameIgnoringCase(s[j + 1..j + 7], "server")
  {
    var w := s[j..j + |Mark|];
    assert w[0] == s[j] && w[7] == s[j + 7];
    var v := s[j + 1..j + 7];
    assert forall k :: 0 <= k < 6 ==> v[k] == w[k + 1];
  }

  /** A slash-free string contains no `/server/`. */
  lemma NoMarkWithoutSlash(s: string, j: nat)
    requires forall k :: 0 <= k < |s| ==> s[k] != '/'
    ensures !MarkAt(s, j)
  {
    if j + |Mark| <= |s| { MarkShape(s, j); }
  }

  /** A plain identifier (no slash) is used as it is. */
  lemma {:induction false} NormalizePlainId(id: string)
    requires forall k :: 0 <= k < |id| ==> id[k] != '/'
    ensures NormalizeServerId(id) == id
  {
    var r := LastMarkBefore(id, FirstLineEnd(id));
    if r.Some? { NoMarkWithoutSlash(id, r.value); }
  }

  /** Normalising a server path `prefix/server/id[/]` recovers `id`, for
      any single-line prefix and any slash-free single-line `id`; the one
      exception is the path `.../server/server/`, whose last `/server/` is
      the final one, leaving nothing, so the raw path is kept. */
  lemma {:induction false} NormalizeServerPath(prefix: string, id: string, trailingSlash: bool)
    requires forall k :: 0 <= k < |prefix| ==> !IsLineTerminator(prefix[k])
    requires id != [] && forall k :: 0 <= k < |id| ==> id[k] != '/' && !IsLineTerminator(id[k])
    requires trailingSlash ==> !SameIgnoringCase(id, "server")
    ensures NormalizeServerId(prefix + Mark + id + (if trailingSlash then "/" else "")) == id
  {
    var tail := if trailingSlash then "/" else "";
    var body := id + tail;
    var s := prefix + Mark + body;
    var p := |prefix|;
    assert s[p..p + |Mark|] == Mark;
    assert s[p + |Mark|..] == body;
    SingleLinePath(prefix, body);
    NoLaterMark(s, p, id, tail);
    assert MarkAt(s, p);
    LastMarkIs(s, p);
    assert StripThroughLastMark(s) == body;
    assert DropTrailingSlash(body) == id;
    assert prefix + Mark + id + tail == s;
  }

  /** The last mark of a single-line string is the one no later mark follows. */
  lemma LastMarkIs(s: string, p: nat)
    requires FirstLineEnd(s) == |s|
    requires p + |Mark| <= |s| && MarkAt(s, p)
    requires forall j: nat :: p < j && j + |Mark| <= |s| ==> !MarkAt(s, j)
    ensures LastMarkBefore(s, FirstLineEnd(s)) == Some(p)
  {
  }

  lemma SingleLinePath(prefix: string, body: string)
    requires forall k :: 0 <= k < |prefix| ==> !IsLineTerminator(prefix[k])
    requires forall k :: 0 <= k < |body| ==> !IsLineTerminator(body[k])
    ensures FirstLineEnd(prefix + Mark + body) == |prefix + Mark + body|
  {
    var s := prefix + Mark + body;
    var p := |prefix|;
    forall k | 0 <= k < |s| ensures !IsLineTerminator(s[k]) {
      if k < p { assert s[k] == prefix[k]; }
      else if k < p + |Mark| { assert s[k] == Mark[k - p]; }
      else { assert s[k] == body[k - p - |Mark|]; }
    }
  }

  /** Only what precedes the last `/server/` goes: slashes after it stay,
      and only a final one is dropped. */
  lemma NormalizeKeepsInnerSlash()
    ensures NormalizeServerId("a/server/x/y") == "x/y"
  {
    var s := "a/server/x/y";
    StripInnerPath(s);
  }

  /** The strip of `a/server/x/y` keeps `x/y`. */
  lemma StripInnerPath(s: string)
    requires s == "a/server/x/y"
    ensures StripThroughLastMark(s) == "x/y"
  {
    assert FirstLineEnd(s) == |s| by {
      assert forall k :: 0 <= k < |s| ==> !IsLineTerminator(s[k]);
    }
    assert MarkAt(s, 1) by { assert s[1..9] == Mark; }
    assert !MarkAt(s, 2) by { MarkShape(s, 2); assert s[2] == 's'; }
    assert !MarkAt(s, 3) by { MarkShape(s, 3); assert s[3] == 'e'; }
    assert !MarkAt(s, 4) by { MarkShape(s, 4); assert s[4] == 'r'; }
    forall j: nat | 1 < j && j + |Mark| <= FirstLineEnd(s) ensures !MarkAt(s, j) {
      assert j == 2 || j == 3 || j == 4;
    }
    StripThroughLastMarkSpec(s);
  }

  /** In `prefix/server/id[/]` no `/server/` starts after the one at `p`. */
  lemma NoLaterMark(s: string, p: nat, id: string, tail: string)
    requires p + |Mark| + |id| + |tail| == |s|
    requires s[p..p + |Mark|] == Mark && s[p + |Mark|..] == id + tail
    requires tail == [] || tail == "/"
    requires id != [] && forall k :: 0 <= k < |id| ==> id[k] != '/'
    requires tail != [] ==> !SameIgnoringCase(id, "server")
    ensures forall j: nat :: p < j && j + |Mark| <= |s| ==> !MarkAt(s, j)
  {
    var q := p + |Mark|;
    var body := id + tail;
    forall j: nat | p < j && j + |Mark| <= |s| ensures !MarkAt(s, j) {
      MarkShape(s, j);
      if j < q - 1 {
        assert s[j] == s[p..q][j - p] == Mark[j - p];
      } else if j == q - 1 {
        assert s[j + 1..j + 7] == body[..6];
        if |id| > 6 {
          assert s[j + 7] == body[6] == id[6];
        } else {
          assert body[..6] == id;
        }
      } else {
        assert s[j] == body[j - q] == id[j - q];
      }
    }
  }
}
