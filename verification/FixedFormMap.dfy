/**
 Position maps of the fixed-form normalizer: aligning rewritten text with the text
 it came from, and answering tree-sitter points with original positions.
 */
module FixedFormMap {
  import opened Prelude

  type Pos = (int, int)

  const MAX_SKIP := 64
  const NOWHERE: Pos := (1, 1)

  // ---------- the greedy scan ----------

  /** The least index from i on that holds c, or the length. */
  function SkipTo(pre: string, i: nat, c: char): (k: nat)
    requires i <= |pre|
    ensures i <= k <= |pre|
    ensures k < |pre| ==> pre[k] == c
    ensures forall x :: i <= x < k ==> pre[x] != c
    decreases |pre| - i
  {
    if i == |pre| || pre[i] == c then i else SkipTo(pre, i + 1, c)
  }

  method FindNext(pre: string, i: nat, c: char) returns (k: nat)
    requires i <= |pre|
    ensures k == SkipTo(pre, i, c)
  {
    k := i;
    while k < |pre| && pre[k] != c
      invariant i <= k <= |pre| && SkipTo(pre, i, c) == SkipTo(pre, k, c)
    {
      k := k + 1;
    }
  }

  predicate Aligned(pre: string, i: nat, c: char)
    requires i <= |pre|
  {
    SkipTo(pre, i, c) < |pre| && SkipTo(pre, i, c) - i <= MAX_SKIP
  }

  /** Where the scan stands in `pre` once j characters of `post` are placed. */
  function At(pre: string, post: string, j: nat): (i: nat)
    requires j <= |post|
    ensures i <= |pre|
  {
    if j == 0 then 0
    else
      var i := At(pre, post, j - 1);
      if Aligned(pre, i, post[j - 1]) then SkipTo(pre, i, post[j - 1]) + 1 else i
  }

  /** The index of `pre` whose origin `post[j]` takes; -1 when `pre` is empty. */
  function Source(pre: string, post: string, j: nat): (k: int)
    requires j < |post|
    ensures -1 <= k < |pre| && (k == -1 ==> pre == "")
  {
    var i := At(pre, post, j);
    if Aligned(pre, i, post[j]) then SkipTo(pre, i, post[j])
    else if i < |pre| then i
    else |pre| - 1
  }

  function OriginAt(origins: seq<Pos>, k: int): Pos {
    if 0 <= k < |origins| then origins[k] else NOWHERE
  }

  lemma {:induction false} ScanOfSameText(pre: string, j: nat)
    requires j <= |pre|
    ensures At(pre, pre, j) == j
    ensures j < |pre| ==> Source(pre, pre, j) == j
  {
    if j > 0 {
      ScanOfSameText(pre, j - 1);
    }
  }

  lemma {:induction false} PlaceAligned(pre: string, post: string, i: nat, j: nat)
    requires i < |pre| && j < |post| && pre[i] == post[j]
    requires i == At(pre, post, j)
             || (Aligned(pre, At(pre, post, j), post[j]) && i == SkipTo(pre, At(pre, post, j), post[j]))
    ensures Source(pre, post, j) == i && At(pre, post, j + 1) == i + 1
  {
  }

  lemma {:induction false} PlaceStuck(pre: string, post: string, j: nat)
    requires j < |post| && !Aligned(pre, At(pre, post, j), post[j])
    ensures At(pre, post, j + 1) == At(pre, post, j)
    ensures Source(pre, post, j) == if At(pre, post, j) < |pre| then At(pre, post, j) else |pre| - 1
  {
  }

  /** The first j output characters carry the origins of their sources. */
  ghost predicate Followed(out: seq<Pos>, origins: seq<Pos>, pre: string, post: string, j: nat)
    requires j <= |post|
  {
    |out| == j && forall x :: 0 <= x < j ==> out[x] == OriginAt(origins, Source(pre, post, x))
  }

  lemma {:induction false} FollowStart(origins: seq<Pos>, pre: string, post: string)
    ensures At(pre, post, 0) == 0 && Followed([], origins, pre, post, 0)
  {
  }

  lemma {:induction false} FollowedStep(out: seq<Pos>, origins: seq<Pos>, pre: string, post: string, j: nat, o: Pos)
    requires j < |post| && Followed(out, origins, pre, post, j)
    requires o == OriginAt(origins, Source(pre, post, j))
    ensures Followed(out + [o], origins, pre, post, j + 1)
  {
    hide Source, OriginAt;
  }

  lemma {:induction false} SameTextKeepsOrigins(origins: seq<Pos>, pre: string)
    requires |origins| == |pre|
    ensures Followed(origins, origins, pre, pre, |pre|)
  {
    forall j | 0 <= j < |pre| ensures Source(pre, pre, j) == j {
      ScanOfSameText(pre, j);
    }
  }

  method FixOriginsFollow(origins: seq<Pos>, pre: string, post: string) returns (out: seq<Pos>)
    requires |origins| == |pre|
    ensures |out| == |post|
    ensures forall j :: 0 <= j < |post| ==> out[j] == OriginAt(origins, Source(pre, post, j))
  {
    if pre == post {
      SameTextKeepsOrigins(origins, pre);
      return origins;
    }
    out := FollowScan(origins, pre, post);
  }

  /** The two-pointer scan; `moved` only records that i has just been advanced to a match. */
  method FollowScan(origins: seq<Pos>, pre: string, post: string) returns (out: seq<Pos>)
    requires |origins| == |pre|
    ensures Followed(out, origins, pre, post, |post|)
  {
    hide SkipTo, At, Source, Followed;
    out := [];
    var i, j := 0, 0;
    ghost var moved := false;
    FollowStart(origins, pre, post);
    while j < |post|
      invariant 0 <= i <= |pre| && 0 <= j <= |post|
      invariant Followed(out, origins, pre, post, j)
      invariant moved ==> j < |post| && Aligned(pre, At(pre, post, j), post[j])
                          && i == SkipTo(pre, At(pre, post, j), post[j])
      invariant !moved ==> i == At(pre, post, j)
      decreases |post| - j, |pre| - i
    {
      if i < |pre| && pre[i] == post[j] {
        PlaceAligned(pre, post, i, j);
        FollowedStep(out, origins, pre, post, j, origins[i]);
        out := out + [origins[i]];
        i, j, moved := i + 1, j + 1, false;
      } else if i < |pre| {
        var k := FindNext(pre, i, post[j]);
        if k < |pre| && k - i <= 64 {
          i, moved := k, true;
        } else {
          PlaceStuck(pre, post, j);
          var o := if origins != [] then origins[if i < |origins| - 1 then i else |origins| - 1] else (1, 1);
          FollowedStep(out, origins, pre, post, j, o);
          out := out + [o];
          j := j + 1;
        }
      } else {
        PlaceStuck(pre, post, j);
        var o := if origins != [] then origins[|origins| - 1] else (1, 1);
        FollowedStep(out, origins, pre, post, j, o);
        out := out + [o];
        j := j + 1;
      }
    }
  }

  // ---------- what the origins mean ----------

  /** `post` is `pre` with characters deleted; e says which ones survive. */
  ghost predicate Embeds(e: seq<int>, pre: string, post: string) {
    && |e| == |post|
    && (forall j :: 0 <= j < |post| ==> 0 <= e[j] < |pre| && pre[e[j]] == post[j])
    && (forall j :: 0 < j < |post| ==> e[j - 1] < e[j])
  }

  ghost function Sources(pre: string, post: string): (s: seq<int>)
    ensures |s| == |post|
    ensures forall j :: 0 <= j < |post| ==> s[j] == Source(pre, post, j)
  {
    seq(|post|, j requires 0 <= j < |post| => Source(pre, post, j))
  }

  /** No single scan runs further than 64 characters. */
  ghost predicate ShortSkips(pre: string, post: string) {
    forall j :: 0 <= j < |post| ==>
      SkipTo(pre, At(pre, post, j), post[j]) - At(pre, post, j) <= MAX_SKIP
  }

  ghost predicate AllAligned(pre: string, post: string) {
    forall j :: 0 <= j < |post| ==> Aligned(pre, At(pre, post, j), post[j])
  }

  /** A placed character leaves the pointer right behind its source. */
  lemma {:induction false} AtFollowsSource(pre: string, post: string, j: nat)
    requires 0 < j <= |post|
    ensures Aligned(pre, At(pre, post, j - 1), post[j - 1]) ==> At(pre, post, j) == Source(pre, post, j - 1) + 1
    ensures !Aligned(pre, At(pre, post, j - 1), post[j - 1]) ==> At(pre, post, j) == At(pre, post, j - 1)
  {
  }

  /** The sources never go backwards, whatever the two texts are. */
  lemma {:induction false} SourcesNeverGoBack(pre: string, post: string, j: nat)
    requires 0 < j < |post|
    ensures Source(pre, post, j - 1) <= Source(pre, post, j)
  {
    AtFollowsSource(pre, post, j);
  }

  lemma {:induction false} AlignedSourcesEmbed(pre: string, post: string)
    requires AllAligned(pre, post)
    ensures Embeds(Sources(pre, post), pre, post)
  {
    hide At;
    forall j | 0 < j < |post| ensures Source(pre, post, j - 1) < Source(pre, post, j) {
      AtFollowsSource(pre, post, j);
    }
  }

  /** Which is the first index that cannot be aligned. */
  lemma {:induction false} FirstStuck(pre: string, post: string, n: nat) returns (j: nat)
    requires n < |post| && !Aligned(pre, At(pre, post, n), post[n])
    ensures j <= n && !Aligned(pre, At(pre, post, j), post[j])
    ensures forall x :: 0 <= x < j ==> Aligned(pre, At(pre, post, x), post[x])
  {
    hide Aligned, At;
    j := 0;
    while Aligned(pre, At(pre, post, j), post[j])
      invariant j <= n && forall x :: 0 <= x < j ==> Aligned(pre, At(pre, post, x), post[x])
      decreases n - j
    {
      j := j + 1;
    }
  }

  /** The origins are those of a character-deleting rewrite exactly when every step aligns. */
  lemma {:induction false} SourcesEmbedIffAligned(pre: string, post: string)
    ensures Embeds(Sources(pre, post), pre, post) <==> AllAligned(pre, post)
  {
    if AllAligned(pre, post) {
      AlignedSourcesEmbed(pre, post);
    } else {
      var n :| 0 <= n < |post| && !Aligned(pre, At(pre, post, n), post[n]);
      var j := FirstStuck(pre, post, n);
      hide At, Aligned, Source, Embeds;
      StuckSourceDoesNotEmbed(pre, post, j);
    }
  }

  /** The first character that cannot be aligned gets a source behind none, or one of another character. */
  lemma {:induction false} StuckSourceDoesNotEmbed(pre: string, post: string, j: nat)
    requires j < |post| && !Aligned(pre, At(pre, post, j), post[j])
    requires j > 0 ==> Aligned(pre, At(pre, post, j - 1), post[j - 1])
    ensures !Embeds(Sources(pre, post), pre, post)
  {
    var e := Sources(pre, post);
    assert e[j] == Source(pre, post, j);
    PlaceStuck(pre, post, j);
    if At(pre, post, j) < |pre| {
      StuckCharacterDiffers(pre, At(pre, post, j), post[j]);
    } else if j > 0 {
      assert e[j - 1] == Source(pre, post, j - 1);
      AtFollowsSource(pre, post, j);
      hide At, Aligned, Source;
    }
  }

  lemma {:induction false} StuckCharacterDiffers(pre: string, i: nat, c: char)
    requires i < |pre| && !Aligned(pre, i, c)
    ensures pre[i] != c
  {
  }

  /** The scan never overtakes any genuine way to delete characters. */
  lemma {:induction false} ScanStaysBehind(e: seq<int>, pre: string, post: string, j: nat)
    requires Embeds(e, pre, post) && j < |post|
    ensures At(pre, post, j) <= e[j] && SkipTo(pre, At(pre, post, j), post[j]) <= e[j]
  {
    if j > 0 {
      ScanStaysBehind(e, pre, post, j - 1);
      assert e[j - 1] < e[j];
      AtFollowsSource(pre, post, j);
    }
  }

  /**
   For a genuine deletion the only way to lose the alignment is a skip over more than
   64 characters; otherwise the scan finds the leftmost embedding.
   */
  lemma {:induction false} DeletionsAlignIffSkipsAreShort(e: seq<int>, pre: string, post: string)
    requires Embeds(e, pre, post)
    ensures Embeds(Sources(pre, post), pre, post) <==> ShortSkips(pre, post)
    ensures ShortSkips(pre, post) ==> forall j :: 0 <= j < |post| ==> Source(pre, post, j) <= e[j]
  {
    SourcesEmbedIffAligned(pre, post);
    forall j | 0 <= j < |post|
      ensures SkipTo(pre, At(pre, post, j), post[j]) <= e[j] < |pre|
    {
      ScanStaysBehind(e, pre, post, j);
    }
  }

  /** The stretch deleted right before survivor j. */
  function Before(e: seq<int>, j: nat): int
    requires j < |e|
  {
    if j == 0 then -1 else e[j - 1]
  }

  /** No deleted stretch exceeds 64 characters or holds the character that survives right behind it. */
  ghost predicate PlainDeletion(e: seq<int>, pre: string, post: string)
    requires Embeds(e, pre, post)
  {
    forall j :: 0 <= j < |post| ==>
      e[j] - Before(e, j) - 1 <= MAX_SKIP && pre[e[j]] !in pre[Before(e, j) + 1..e[j]]
  }

  lemma {:induction false} PlainDeletionIsFollowed(e: seq<int>, pre: string, post: string, j: nat)
    requires Embeds(e, pre, post) && PlainDeletion(e, pre, post) && j < |post|
    ensures |e| == |post| && Source(pre, post, j) == e[j] && At(pre, post, j + 1) == e[j] + 1
  {
    hide PlainDeletion, Embeds, SkipTo, At, Source, Aligned;
    PlainStepAligns(e, pre, post, j);
    if j > 0 {
      PlainDeletionIsFollowed(e, pre, post, j - 1);
    } else {
      FollowStart([], pre, post);
    }
    PlaceAligned(pre, post, e[j], j);
  }

  lemma {:induction false} PlainStepAligns(e: seq<int>, pre: string, post: string, j: nat)
    requires Embeds(e, pre, post) && PlainDeletion(e, pre, post) && j < |post|
    ensures |e| == |post| && 0 <= e[j] < |pre| && pre[e[j]] == post[j]
    ensures 0 <= Before(e, j) + 1 <= |pre| && SkipTo(pre, Before(e, j) + 1, post[j]) == e[j]
    ensures Aligned(pre, Before(e, j) + 1, post[j])
  {
    assert pre[e[j]] == post[j];
    assert j > 0 ==> e[j - 1] < e[j];
    var i := Before(e, j) + 1;
    assert e[j] - i <= MAX_SKIP && post[j] !in pre[i..e[j]];
    hide PlainDeletion, Embeds;
    forall k | i <= k < e[j] ensures pre[k] != post[j] {
      assert pre[i..e[j]][k - i] == pre[k];
    }
    FirstMatch(pre, i, e[j], post[j]);
  }

  /** The scan stops at the first match. */
  lemma {:induction false} FirstMatch(pre: string, i: nat, k: nat, c: char)
    requires i <= k < |pre| && pre[k] == c && k - i <= MAX_SKIP
    requires forall x :: i <= x < k ==> pre[x] != c
    ensures SkipTo(pre, i, c) == k && Aligned(pre, i, c)
    decreases k - i
  {
    if i < k {
      FirstMatch(pre, i + 1, k, c);
    }
  }

  lemma {:induction false} FollowedDeletionIsPlain(e: seq<int>, pre: string, post: string)
    requires Embeds(e, pre, post) && Sources(pre, post) == e
    ensures PlainDeletion(e, pre, post)
  {
    SourcesEmbedIffAligned(pre, post);
    forall j | 0 <= j < |post|
      ensures e[j] - Before(e, j) - 1 <= MAX_SKIP && pre[e[j]] !in pre[Before(e, j) + 1..e[j]]
    {
      assert Aligned(pre, At(pre, post, j), post[j]);
      assert e[j] == Source(pre, post, j);
      if j > 0 {
        assert Aligned(pre, At(pre, post, j - 1), post[j - 1]);
        assert e[j - 1] == Source(pre, post, j - 1);
        AtFollowsSource(pre, post, j);
      }
      assert At(pre, post, j) == Before(e, j) + 1;
    }
  }

  /** "Every surviving char keeps its origin" holds exactly for plain deletions. */
  lemma {:induction false} SurvivorsKeepOriginsIffPlain(e: seq<int>, pre: string, post: string)
    requires Embeds(e, pre, post)
    ensures Sources(pre, post) == e <==> PlainDeletion(e, pre, post)
  {
    if PlainDeletion(e, pre, post) {
      forall j | 0 <= j < |post| ensures Sources(pre, post)[j] == e[j] {
        PlainDeletionIsFollowed(e, pre, post, j);
      }
    }
    if Sources(pre, post) == e {
      FollowedDeletionIsPlain(e, pre, post);
    }
  }

  /** Of two equal characters the first is deleted, and the survivor is given its place. */
  lemma {:induction false} EqualNeighbourTakesTheOrigin()
    ensures Embeds([1], "aa", "a") && !PlainDeletion([1], "aa", "a") && Sources("aa", "a") == [0]
  {
    assert Embeds([0], "aa", "a") && PlainDeletion([0], "aa", "a");
    SurvivorsKeepOriginsIffPlain([0], "aa", "a");
    SurvivorsKeepOriginsIffPlain([1], "aa", "a");
    assert Sources("aa", "a")[0] != 1;
  }

  // ---------- the final map of one statement line ----------

  /** The origin of the last aligned character among the first j; the first origin before any. */
  function LastOrigin(origins: seq<Pos>, pre: string, post: string, j: nat): Pos
    requires j <= |post|
  {
    if j == 0 then (if origins != [] then origins[0] else NOWHERE)
    else
      var i := At(pre, post, j - 1);
      if Aligned(pre, i, post[j - 1]) && SkipTo(pre, i, post[j - 1]) < |origins|
      then origins[SkipTo(pre, i, post[j - 1])]
      else LastOrigin(origins, pre, post, j - 1)
  }

  function MappedAt(origins: seq<Pos>, pre: string, post: string, j: int): Pos
    requires 0 <= j < |post|
  {
    LastOrigin(origins, pre, post, j + 1)
  }

  /** The positions `_map_chars` appends: one per output character. */
  function MappedChars(origins: seq<Pos>, pre: string, post: string): (r: seq<Pos>)
    ensures |r| == |post|
  {
    seq(|post|, j requires 0 <= j < |post| => MappedAt(origins, pre, post, j))
  }

  ghost predicate Mapped(out: seq<Pos>, chars: seq<Pos>, origins: seq<Pos>, pre: string, post: string, j: nat)
    requires j <= |post|
  {
    && |out| == |chars| + j && out[..|chars|] == chars
    && forall x :: |chars| <= x < |out| ==> out[x] == MappedAt(origins, pre, post, x - |chars|)
  }

  lemma {:induction false} MapStart(chars: seq<Pos>, origins: seq<Pos>, pre: string, post: string)
    ensures At(pre, post, 0) == 0 && Mapped(chars, chars, origins, pre, post, 0)
  {
  }

  lemma {:induction false} MappedStep(
      out: seq<Pos>, chars: seq<Pos>, origins: seq<Pos>, pre: string, post: string, j: nat)
    requires j < |post| && Mapped(out, chars, origins, pre, post, j)
    ensures Mapped(out + [LastOrigin(origins, pre, post, j + 1)], chars, origins, pre, post, j + 1)
  {
    hide LastOrigin;
  }

  lemma {:induction false} MappedAll(out: seq<Pos>, chars: seq<Pos>, origins: seq<Pos>, pre: string, post: string)
    requires Mapped(out, chars, origins, pre, post, |post|)
    ensures out == chars + MappedChars(origins, pre, post)
  {
    hide LastOrigin;
    forall k | 0 <= k < |out| ensures out[k] == (chars + MappedChars(origins, pre, post))[k] {
      if k < |chars| {
        assert out[..|chars|][k] == chars[k];
      } else {
        assert out[k] == MappedAt(origins, pre, post, k - |chars|);
      }
    }
  }

  method MapChars(pre: string, post: string, origins: seq<Pos>, chars: seq<Pos>) returns (out: seq<Pos>)
    ensures out == chars + MappedChars(origins, pre, post)
  {
    hide SkipTo, At, Mapped, MappedChars;
    out := chars;
    var i, j := 0, 0;
    var last := if origins != [] then origins[0] else (1, 1);
    ghost var moved := false;
    MapStart(chars, origins, pre, post);
    while j < |post|
      invariant 0 <= i <= |pre| && 0 <= j <= |post|
      invariant Mapped(out, chars, origins, pre, post, j)
      invariant last == LastOrigin(origins, pre, post, j)
      invariant moved ==> j < |post| && Aligned(pre, At(pre, post, j), post[j])
                          && i == SkipTo(pre, At(pre, post, j), post[j])
      invariant !moved ==> i == At(pre, post, j)
      decreases |post| - j, |pre| - i
    {
      MappedStep(out, chars, origins, pre, post, j);
      if i < |pre| && pre[i] == post[j] {
        PlaceAligned(pre, post, i, j);
        MapsAligned(origins, pre, post, i, j);
        var origin := if i < |origins| then origins[i] else last;
        out := out + [origin];
        last := origin;
        i, j, moved := i + 1, j + 1, false;
      } else if i < |pre| {
        var k := FindNext(pre, i, post[j]);
        if k < |pre| && k - i <= 64 {
          i, moved := k, true;
        } else {
          PlaceStuck(pre, post, j);
          out := out + [last];
          j := j + 1;
        }
      } else {
        PlaceStuck(pre, post, j);
        out := out + [last];
        j := j + 1;
      }
    }
    MappedAll(out, chars, origins, pre, post);
  }

  lemma {:induction false} MapsAligned(origins: seq<Pos>, pre: string, post: string, i: nat, j: nat)
    requires i < |pre| && j < |post| && pre[i] == post[j]
    requires i == At(pre, post, j)
             || (Aligned(pre, At(pre, post, j), post[j]) && i == SkipTo(pre, At(pre, post, j), post[j]))
    ensures LastOrigin(origins, pre, post, j + 1)
         == if i < |origins| then origins[i] else LastOrigin(origins, pre, post, j)
  {
    hide At;
  }

  /** A character that aligns keeps its own origin; an inserted one repeats its predecessor's. */
  lemma {:induction false} MappedCharMeaning(origins: seq<Pos>, pre: string, post: string, j: nat)
    requires |origins| == |pre| && j < |post|
    ensures Aligned(pre, At(pre, post, j), post[j]) ==>
              var k := Source(pre, post, j);
              pre[k] == post[j] && MappedChars(origins, pre, post)[j] == origins[k]
    ensures !Aligned(pre, At(pre, post, j), post[j]) ==>
              MappedChars(origins, pre, post)[j]
              == if j > 0 then MappedChars(origins, pre, post)[j - 1] else OriginAt(origins, 0)
  {
    hide At;
    assert j > 0 ==> MappedChars(origins, pre, post)[j - 1] == LastOrigin(origins, pre, post, j);
    assert MappedChars(origins, pre, post)[j] == LastOrigin(origins, pre, post, j + 1);
    if !Aligned(pre, At(pre, post, j), post[j]) {
      assert LastOrigin(origins, pre, post, j + 1) == LastOrigin(origins, pre, post, j);
      if j == 0 {
        assert LastOrigin(origins, pre, post, 0) == OriginAt(origins, 0);
      }
    }
  }

  // ---------- assembling the normalized text ----------

  /**
   One line handed to the final pass: its joined text, the origins of that text (None for
   a blank line), the line number it falls back to, and what the last rewrites make of it.
   */
  datatype OutLine = OutLine(text: string, origins: Option<seq<Pos>>, line: int, rewritten: string)

  predicate LooksLikeComment(text: string) {
    |text| >= 2 && text[0] == '!' && text[1] == ' '
  }

  function FinalText(o: OutLine): string {
    if o.origins.None? then ""
    else if LooksLikeComment(o.text) then o.text
    else o.rewritten
  }

  function FinalChars(o: OutLine): seq<Pos> {
    if o.origins.None? then []
    else if LooksLikeComment(o.text) then [(o.line, 1), (o.line, 1)] + o.origins.value
    else MappedChars(o.origins.value, o.text, o.rewritten)
  }

  /** Where line k of the output starts: every earlier line and its newline. */
  function TextStart(lines: seq<OutLine>, k: nat): nat
    requires k <= |lines|
  {
    if k == 0 then 0 else TextStart(lines, k - 1) + |FinalText(lines[k - 1])| + 1
  }

  function CharsUpTo(lines: seq<OutLine>, k: nat): seq<Pos>
    requires k <= |lines|
  {
    if k == 0 then [] else CharsUpTo(lines, k - 1) + FinalChars(lines[k - 1])
  }

  lemma {:induction false} LinesSoFar(lines: seq<OutLine>)
    ensures TextStart(lines, 0) == 0 && CharsUpTo(lines, 0) == []
  {
  }

  lemma {:induction false} LinesStep(lines: seq<OutLine>, k: nat)
    requires k < |lines|
    ensures TextStart(lines, k + 1) == TextStart(lines, k) + |FinalText(lines[k])| + 1
    ensures CharsUpTo(lines, k + 1) == CharsUpTo(lines, k) + FinalChars(lines[k])
  {
  }

  method Assemble(lines: seq<OutLine>) returns (chars: seq<Pos>, byteStart: seq<nat>, charStart: seq<nat>)
    ensures chars == CharsUpTo(lines, |lines|)
    ensures |byteStart| == |charStart| == |lines|
    ensures forall k :: 0 <= k < |lines| ==>
      byteStart[k] == TextStart(lines, k) && charStart[k] == |CharsUpTo(lines, k)|
  {
    hide FinalChars, FinalText, TextStart, CharsUpTo;
    chars, byteStart, charStart := [], [], [];
    var total := 0;
    LinesSoFar(lines);
    for k := 0 to |lines|
      invariant chars == CharsUpTo(lines, k) && total == TextStart(lines, k)
      invariant |byteStart| == |charStart| == k
      invariant forall x :: 0 <= x < k ==>
        byteStart[x] == TextStart(lines, x) && charStart[x] == |CharsUpTo(lines, x)|
    {
      byteStart := byteStart + [total];
      charStart := charStart + [|chars|];
      LinesStep(lines, k);
      var size;
      chars, size := AppendLine(chars, lines[k]);
      total := total + size + 1;
    }
  }

  /** A line that looks like a comment keeps its text, behind two positions of its own. */
  method AppendLine(chars: seq<Pos>, o: OutLine) returns (out: seq<Pos>, size: nat)
    ensures out == chars + FinalChars(o) && size == |FinalText(o)|
    ensures o.origins.None? ==> out == chars && size == 0
    ensures o.origins.Some? && "! " <= o.text ==>
      out == chars + [(o.line, 1), (o.line, 1)] + o.origins.value && size == |o.text|
    ensures o.origins.Some? && !("! " <= o.text) ==>
      out == chars + MappedChars(o.origins.value, o.text, o.rewritten) && size == |o.rewritten|
  {
    hide MappedChars;
    if o.origins.None? {
      out, size := chars, 0;
    } else if LooksLikeComment(o.text) {
      out := chars + [(o.line, 1), (o.line, 1)];
      for i := 0 to |o.origins.value|
        invariant out == chars + [(o.line, 1), (o.line, 1)] + o.origins.value[..i]
      {
        out := out + [o.origins.value[i]];
      }
      assert o.origins.value[..|o.origins.value|] == o.origins.value;
      assert out == chars + FinalChars(o);
      size := |o.text|;
    } else {
      out := MapChars(o.text, o.rewritten, o.origins.value, chars);
      size := |o.rewritten|;
    }
  }

  // ---------- the byte map ----------

  /** How many characters start in data[from..upto]; true marks a first byte. */
  function Starts(data: seq<bool>, from: nat, upto: nat): nat
    requires from <= upto <= |data|
  {
    if from == upto then 0 else Starts(data, from, upto - 1) + (if data[upto - 1] then 1 else 0)
  }

  function Limit(byteStart: seq<nat>, size: nat, k: nat): int
    requires k < |byteStart|
  {
    if k + 1 < |byteStart| then byteStart[k + 1] - 1 else size
  }

  /** Line starts that fit the encoded text. */
  ghost predicate StartsFit(byteStart: seq<nat>, size: nat) {
    && (|byteStart| > 0 ==> byteStart[0] == 0)
    && (forall k :: 0 < k < |byteStart| ==> byteStart[k - 1] < byteStart[k])
    && (forall k :: 0 <= k < |byteStart| ==> byteStart[k] <= size)
    && (|byteStart| == 0 ==> size == 0)
  }

  /** What the map says about the bytes of line k. */
  ghost predicate LineMapped(btc: seq<nat>, byteStart: seq<nat>, charStart: seq<nat>, data: seq<bool>, k: nat)
    requires k < |byteStart| == |charStart| && StartsFit(byteStart, |data|)
  {
    && byteStart[k] <= Limit(byteStart, |data|, k) <= |btc| && Limit(byteStart, |data|, k) <= |data|
    && forall b :: byteStart[k] <= b < Limit(byteStart, |data|, k) ==>
      btc[b] == charStart[k] + Starts(data, byteStart[k], b)
  }

  lemma {:induction false} LimitFits(byteStart: seq<nat>, size: nat, k: nat)
    requires k < |byteStart| && StartsFit(byteStart, size)
    ensures byteStart[k] <= Limit(byteStart, size, k) <= size
    ensures Limit(byteStart, size, k) < size <==> k + 1 < |byteStart|
  {
    assert k + 1 < |byteStart| ==> byteStart[k + 1 - 1] < byteStart[k + 1] <= size;
  }

  method BuildByteMap(byteStart: seq<nat>, charStart: seq<nat>, data: seq<bool>, nchars: nat)
    returns (btc: seq<nat>)
    requires |byteStart| == |charStart| && StartsFit(byteStart, |data|)
    ensures |btc| == |data| + 1
    ensures forall k :: 0 <= k < |byteStart| ==> LineMapped(btc, byteStart, charStart, data, k)
  {
    hide LineMapped, Starts;
    btc := [];
    for k := 0 to |byteStart|
      invariant k < |byteStart| ==> |btc| == byteStart[k]
      invariant k == |byteStart| ==> |btc| == |data|
      invariant forall x :: 0 <= x < k ==> LineMapped(btc, byteStart, charStart, data, x)
    {
      LimitFits(byteStart, |data|, k);
      ghost var before := btc;
      var lend := if k + 1 < |byteStart| then byteStart[k + 1] - 1 else |data|;
      btc := MapLine(btc, byteStart, charStart, data, k);
      var added := btc;
      if lend < |data| {
        var local := CountStarts(data, byteStart[k], lend);
        btc := btc + [charStart[k] + (if local > 0 then local - 1 else 0)];
      }
      assert added <= btc;
      LineSurvives(added, btc, byteStart, charStart, data, k);
      forall x | 0 <= x < k ensures LineMapped(btc, byteStart, charStart, data, x) {
        LineSurvives(before, btc, byteStart, charStart, data, x);
      }
    }
    ghost var all := btc;
    btc := btc + [if nchars > 0 then nchars - 1 else 0];
    forall x | 0 <= x < |byteStart| ensures LineMapped(btc, byteStart, charStart, data, x) {
      LineSurvives(all, btc, byteStart, charStart, data, x);
    }
  }

  lemma {:induction false} LineSurvives(
      btc: seq<nat>, longer: seq<nat>, byteStart: seq<nat>, charStart: seq<nat>, data: seq<bool>, k: nat)
    requires k < |byteStart| == |charStart| && StartsFit(byteStart, |data|)
    requires LineMapped(btc, byteStart, charStart, data, k) && btc <= longer
    ensures LineMapped(longer, byteStart, charStart, data, k)
  {
    hide StartsFit, Starts;
  }

  method CountStarts(data: seq<bool>, from: nat, upto: nat) returns (n: nat)
    requires from <= upto <= |data|
    ensures n == Starts(data, from, upto)
  {
    n := 0;
    for b := from to upto
      invariant n == Starts(data, from, b)
    {
      if data[b] { n := n + 1; }
    }
  }

  method MapLine(btc: seq<nat>, byteStart: seq<nat>, charStart: seq<nat>, data: seq<bool>, k: nat)
    returns (out: seq<nat>)
    requires k < |byteStart| == |charStart| && StartsFit(byteStart, |data|) && |btc| == byteStart[k]
    ensures btc <= out && |out| == Limit(byteStart, |data|, k)
    ensures LineMapped(out, byteStart, charStart, data, k)
  {
    LimitFits(byteStart, |data|, k);
    hide StartsFit;
    var lend := if k + 1 < |byteStart| then byteStart[k + 1] - 1 else |data|;
    out := btc;
    var local := 0;
    for b := byteStart[k] to lend
      invariant |out| == b && btc <= out && local == Starts(data, byteStart[k], b)
      invariant forall x :: byteStart[k] <= x < b ==> out[x] == charStart[k] + Starts(data, byteStart[k], x)
    {
      out := out + [charStart[k] + local];
      if data[b] { local := local + 1; }
    }
  }

  // ---------- answering positions ----------

  datatype Normalization = Normalization(chars: seq<Pos>, byteStart: seq<nat>, btc: seq<nat>) {
    function GlobalByte(row: int, col: int): int {
      if row < 0 || row >= |byteStart| then 0
      else
        var b := byteStart[row] + (if col > 0 then col else 0);
        var top := if |btc| > 1 then |btc| - 1 else 0;
        if b < top then b else top
    }

    /** In range for every byte offset whatsoever, negative ones included. */
    function CharIndex(b: int): (k: nat)
      ensures chars != [] ==> k < |chars|
    {
      if chars == [] || b <= 0 then 0
      else if b >= |btc| - 1 then |chars| - 1
      else if btc[b] < |chars| - 1 then btc[b] else |chars| - 1
    }

    function OrigPt(row: int, col: int): (p: Pos)
      ensures p == (1, 1) || p in chars
    {
      if chars == [] then (1, 1) else chars[CharIndex(GlobalByte(row, col))]
    }

    function OrigEnd(row: int, col: int): (p: Pos)
      ensures p == (1, 1) || exists q :: q in chars && p == (q.0, q.1 + 1)
    {
      if chars == [] then (1, 1)
      else
        var q := chars[CharIndex(GlobalByte(row, col) - 1)];
        assert q in chars;
        (q.0, q.1 + 1)
    }
  }

  /** Bytes of the joined text when every character takes one byte. */
  function TextLength(lines: seq<OutLine>): nat {
    if lines == [] then 0 else TextStart(lines, |lines| - 1) + |FinalText(lines[|lines| - 1])|
  }

  /** The bytes of row k point at the characters of row k. */
  ghost predicate RowMapped(n: Normalization, lines: seq<OutLine>, data: seq<bool>, k: nat)
    requires k < |lines| == |n.byteStart|
  {
    && n.byteStart[k] <= Limit(n.byteStart, |data|, k) <= |data|
    && Limit(n.byteStart, |data|, k) <= |n.btc|
    && forall b :: n.byteStart[k] <= b < Limit(n.byteStart, |data|, k) ==>
      n.btc[b] == |CharsUpTo(lines, k)| + Starts(data, n.byteStart[k], b)
  }

  /** n is the normalization of these lines, data being the bytes of its text. */
  ghost predicate Describes(n: Normalization, lines: seq<OutLine>, data: seq<bool>) {
    && n.chars == CharsUpTo(lines, |lines|)
    && |n.byteStart| == |lines| && StartsFit(n.byteStart, |data|)
    && (forall k :: 0 <= k < |lines| ==> n.byteStart[k] == TextStart(lines, k))
    && |n.btc| == |data| + 1
    && (forall k :: 0 <= k < |lines| ==> RowMapped(n, lines, data, k))
  }

  lemma {:induction false} DescribesMeans(n: Normalization, lines: seq<OutLine>, data: seq<bool>, k: nat)
    requires Describes(n, lines, data) && k < |lines|
    ensures n.chars == CharsUpTo(lines, |lines|) && |n.btc| == |data| + 1
    ensures |n.byteStart| == |lines| && n.byteStart[k] == TextStart(lines, k)
    ensures RowMapped(n, lines, data, k)
    ensures k + 1 < |lines| ==> n.byteStart[k + 1] == TextStart(lines, k + 1)
  {
    hide StartsFit, RowMapped, TextStart, CharsUpTo;
  }

  lemma {:induction false} RowMappedByBuild(
      n: Normalization, lines: seq<OutLine>, charStart: seq<nat>, data: seq<bool>, k: nat)
    requires k < |lines| == |n.byteStart| == |charStart| && StartsFit(n.byteStart, |data|)
    requires charStart[k] == |CharsUpTo(lines, k)| && LineMapped(n.btc, n.byteStart, charStart, data, k)
    ensures RowMapped(n, lines, data, k)
  {
    hide StartsFit, CharsUpTo, Starts;
  }

  lemma {:induction false} LineStartsFit(lines: seq<OutLine>, byteStart: seq<nat>, size: nat)
    requires TextLength(lines) <= size && (lines == [] ==> size == 0)
    requires |byteStart| == |lines| && forall k :: 0 <= k < |lines| ==> byteStart[k] == TextStart(lines, k)
    ensures StartsFit(byteStart, size)
  {
    hide TextStart, FinalText;
    if lines != [] {
      LinesSoFar(lines);
    }
    forall k | 0 <= k < |lines| ensures byteStart[k] <= size {
      TextStartsIncrease(lines, k, |lines| - 1);
    }
    forall k | 0 < k < |byteStart| ensures byteStart[k - 1] < byteStart[k] {
      LinesStep(lines, k - 1);
    }
  }

  lemma {:induction false} TextStartsIncrease(lines: seq<OutLine>, k: nat, m: nat)
    requires k <= m < |lines|
    ensures TextStart(lines, k) + (m - k) <= TextStart(lines, m)
    decreases m
  {
    if k < m {
      TextStartsIncrease(lines, k, m - 1);
    }
  }

  method Normalize(lines: seq<OutLine>, data: seq<bool>) returns (n: Normalization)
    requires TextLength(lines) <= |data| && (lines == [] ==> data == [])
    ensures Describes(n, lines, data)
  {
    hide TextStart, CharsUpTo, TextLength;
    var chars, byteStart, charStart := Assemble(lines);
    LineStartsFit(lines, byteStart, |data|);
    var btc := BuildByteMap(byteStart, charStart, data, |chars|);
    n := Normalization(chars, byteStart, btc);
    hide StartsFit, LineMapped, RowMapped;
    forall k | 0 <= k < |lines| ensures RowMapped(n, lines, data, k) {
      RowMappedByBuild(n, lines, charStart, data, k);
    }
  }

  lemma {:induction false} AllStart(data: seq<bool>, from: nat, upto: nat)
    requires from <= upto <= |data| && forall b :: 0 <= b < |data| ==> data[b]
    ensures Starts(data, from, upto) == upto - from
  {
    if from < upto {
      AllStart(data, from, upto - 1);
    }
  }

  lemma {:induction false} CharsOfLine(lines: seq<OutLine>, k: nat, m: nat)
    requires k < m <= |lines|
    ensures |CharsUpTo(lines, k)| + |FinalChars(lines[k])| <= |CharsUpTo(lines, m)|
    ensures forall c :: 0 <= c < |FinalChars(lines[k])| ==>
      CharsUpTo(lines, m)[|CharsUpTo(lines, k)| + c] == FinalChars(lines[k])[c]
    decreases m
  {
    hide FinalChars;
    if k + 1 < m {
      CharsOfLine(lines, k, m - 1);
    }
    LinesStep(lines, m - 1);
  }

  lemma {:induction false} EndsWithin(lines: seq<OutLine>, k: nat)
    requires k < |lines|
    ensures TextStart(lines, k) + |FinalText(lines[k])| <= TextLength(lines)
    ensures k + 1 == |lines| ==> TextStart(lines, k) + |FinalText(lines[k])| == TextLength(lines)
  {
    if k + 1 < |lines| {
      TextStartsIncrease(lines, k + 1, |lines| - 1);
    }
  }

  lemma {:induction false} FirstByteIsFirstChar(lines: seq<OutLine>, k: nat)
    requires k < |lines|
    ensures TextStart(lines, k) == 0 ==> CharsUpTo(lines, k) == []
  {
    if k > 0 {
      TextStartsIncrease(lines, 0, k);
    }
  }

  /** The map entry of column c of an ASCII line. */
  lemma {:induction false} AsciiEntry(n: Normalization, lines: seq<OutLine>, data: seq<bool>, k: nat, c: nat)
    requires Describes(n, lines, data) && |data| == TextLength(lines) && (forall b :: 0 <= b < |data| ==> data[b])
    requires k < |lines| && c < |FinalText(lines[k])|
    ensures TextStart(lines, k) + |FinalText(lines[k])| <= |data|
    ensures n.btc[TextStart(lines, k) + c] == |CharsUpTo(lines, k)| + c
  {
    hide Describes, StartsFit, TextStart, CharsUpTo, FinalText, FinalChars, TextLength, Starts;
    EndsWithin(lines, k);
    if k + 1 < |lines| { LinesStep(lines, k); }
    DescribesMeans(n, lines, data, k);
    AllStart(data, n.byteStart[k], TextStart(lines, k) + c);
  }

  /** In ASCII text a byte inside a line is answered with that line's own map. */
  lemma {:induction false} AsciiByte(n: Normalization, lines: seq<OutLine>, data: seq<bool>, k: nat, c: nat)
    requires Describes(n, lines, data) && |data| == TextLength(lines) && (forall b :: 0 <= b < |data| ==> data[b])
    requires k < |lines| && c < |FinalText(lines[k])| <= |FinalChars(lines[k])|
    ensures TextStart(lines, k) + |FinalText(lines[k])| <= |data|
    ensures n.chars != [] && n.chars[n.CharIndex(TextStart(lines, k) + c)] == FinalChars(lines[k])[c]
  {
    hide Describes, TextStart, CharsUpTo, FinalChars, FinalText, TextLength, RowMapped;
    AsciiEntry(n, lines, data, k, c);
    CharsOfLine(lines, k, |lines|);
    FirstByteIsFirstChar(lines, k);
    DescribesMeans(n, lines, data, k);
  }

  lemma {:induction false} ByteOfColumn(n: Normalization, lines: seq<OutLine>, data: seq<bool>, k: nat, c: nat)
    requires Describes(n, lines, data) && k < |lines| && TextStart(lines, k) + c <= |data|
    ensures n.GlobalByte(k, c) == TextStart(lines, k) + c
  {
    hide Describes, StartsFit, RowMapped, TextStart, CharsUpTo;
    DescribesMeans(n, lines, data, k);
  }

  /** In ASCII text a point inside a line is answered with that line's own map. */
  lemma {:induction false} AsciiPointIsExact(n: Normalization, lines: seq<OutLine>, data: seq<bool>, k: nat, c: nat)
    requires Describes(n, lines, data) && |data| == TextLength(lines) && (forall b :: 0 <= b < |data| ==> data[b])
    requires k < |lines| && c < |FinalText(lines[k])| <= |FinalChars(lines[k])|
    ensures n.OrigPt(k, c) == FinalChars(lines[k])[c]
    ensures n.OrigEnd(k, c + 1) == (n.OrigPt(k, c).0, n.OrigPt(k, c).1 + 1)
  {
    hide Describes, FinalChars, FinalText, TextStart, TextLength;
    AsciiByte(n, lines, data, k, c);
    ByteOfColumn(n, lines, data, k, c);
    ByteOfColumn(n, lines, data, k, c + 1);
  }

  /** A statement column answers with the place its own character came from. */
  lemma {:induction false} StatementPointsComeFromTheirCharacter(
      n: Normalization, lines: seq<OutLine>, data: seq<bool>, k: nat, c: nat)
    requires Describes(n, lines, data) && |data| == TextLength(lines) && (forall b :: 0 <= b < |data| ==> data[b])
    requires k < |lines| && lines[k].origins.Some? && |lines[k].origins.value| == |lines[k].text|
    requires !("! " <= lines[k].text) && c < |lines[k].rewritten|
    requires AllAligned(lines[k].text, lines[k].rewritten)
    ensures var s := Source(lines[k].text, lines[k].rewritten, c);
            s >= 0 && lines[k].text[s] == lines[k].rewritten[c] && n.OrigPt(k, c) == lines[k].origins.value[s]
  {
    AsciiPointIsExact(n, lines, data, k, c);
    hide MappedChars, At, Describes, TextLength;
    MappedCharMeaning(lines[k].origins.value, lines[k].text, lines[k].rewritten, c);
  }

  ghost predicate RowExact(n: Normalization, k: nat, origins: seq<Pos>) {
    forall c :: 0 <= c < |origins| ==> n.OrigPt(k, c) == origins[c]
  }

  lemma {:induction false} SameTextMaps(origins: seq<Pos>, pre: string)
    requires |origins| == |pre|
    ensures MappedChars(origins, pre, pre) == origins
  {
    forall j | 0 <= j < |pre| ensures MappedChars(origins, pre, pre)[j] == origins[j] {
      ScanOfSameText(pre, j);
      MappedCharMeaning(origins, pre, pre, j);
    }
  }

  /**
   A statement line left as it is keeps every position, unless its text starts with an
   exclamation mark and a blank: two extra entries then shift the whole row.
   */
  lemma {:induction false} RowExactIffNotCommentLike(n: Normalization, lines: seq<OutLine>, data: seq<bool>, k: nat)
    requires Describes(n, lines, data) && |data| == TextLength(lines) && (forall b :: 0 <= b < |data| ==> data[b])
    requires k < |lines| && lines[k].origins.Some? && lines[k].rewritten == lines[k].text
    requires |lines[k].origins.value| == |lines[k].text|
    requires forall a, b :: 0 <= a < b < |lines[k].text| ==> lines[k].origins.value[a] != lines[k].origins.value[b]
    ensures RowExact(n, k, lines[k].origins.value) <==> !("! " <= lines[k].text)
  {
    var o := lines[k];
    SameTextMaps(o.origins.value, o.text);
    hide MappedChars, Describes, TextLength;
    forall c | 0 <= c < |o.text| ensures n.OrigPt(k, c) == FinalChars(o)[c] {
      AsciiPointIsExact(n, lines, data, k, c);
    }
    if LooksLikeComment(o.text) {
      assert n.OrigPt(k, 0) == FinalChars(o)[0] == FinalChars(o)[1] == n.OrigPt(k, 1);
      assert o.origins.value[0] != o.origins.value[1];
    }
  }

  const BANG := OutLine("! a", Some([(7, 7), (7, 8), (7, 9)]), 7, "! a")

  const BANG_BYTES := [true, true, true]
  const BANG_MAP := Normalization([(7, 1), (7, 1), (7, 7), (7, 8), (7, 9)], [0], [0, 1, 2, 4])

  /** A statement row that starts with an exclamation mark and a blank answers with other places. */
  lemma {:induction false} BangRowIsShifted()
    ensures Describes(BANG_MAP, [BANG], BANG_BYTES) && |BANG_BYTES| == TextLength([BANG])
    ensures !RowExact(BANG_MAP, 0, BANG.origins.value) && BANG_MAP.OrigPt(0, 2) == (7, 7)
  {
    BangIsDescribed();
    hide Describes, TextLength, FinalText, FinalChars;
    AsciiPointIsExact(BANG_MAP, [BANG], BANG_BYTES, 0, 0);
    AsciiPointIsExact(BANG_MAP, [BANG], BANG_BYTES, 0, 2);
    assert BANG.origins.value[0] == (7, 7);
  }

  lemma {:induction false} BangIsDescribed()
    ensures Describes(BANG_MAP, [BANG], BANG_BYTES) && |BANG_BYTES| == TextLength([BANG])
    ensures FinalText(BANG) == BANG.text && FinalChars(BANG) == BANG_MAP.chars
  {
    BangLine();
    LinesSoFar([BANG]);
    LinesStep([BANG], 0);
    hide FinalText, FinalChars, TextStart, CharsUpTo, Starts;
    forall b | 0 <= b < 3 ensures BANG_MAP.btc[b] == Starts(BANG_BYTES, 0, b) {
      AllStart(BANG_BYTES, 0, b);
    }
  }

  lemma {:induction false} BangLine()
    ensures FinalText(BANG) == BANG.text && FinalChars(BANG) == BANG_MAP.chars
  {
    hide MappedChars;
  }

  /** A deletion of 65 characters: the survivor is reported where another character stood. */
  lemma {:induction false} LongSkipLosesThePlace()
    ensures exists pre: string, post: string, e: seq<int> ::
      Embeds(e, pre, post) && !ShortSkips(pre, post) && pre[Source(pre, post, 0)] != post[0]
  {
    var pre := seq(65, i => ' ') + "a";
    var e: seq<int> := [65];
    assert Embeds(e, pre, "a");
    assert SkipTo(pre, 0, 'a') == 65 by {
      ScanStaysBehind(e, pre, "a", 0);
      var k := SkipTo(pre, 0, 'a');
      assert pre[k] == 'a';
    }
    assert !Aligned(pre, 0, 'a');
    assert At(pre, "a", 0) == 0;
    assert Source(pre, "a", 0) == 0;
    assert SkipTo(pre, At(pre, "a", 0), "a"[0]) - At(pre, "a", 0) == 65;
  }
}
