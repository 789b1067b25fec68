/**
 * The summary card of one record: the meet-channel label, the colour and the
 * title prefix chosen from the name, and the three-tag previews.
 */
module DatePersonCard {
  import opened JsBuiltins

  /** The label of the "other" meet channel, whose detail follows a ':'. */
  const OtherChannel := "其他"

  const Colors: seq<string> := ["bg-accent", "bg-secondary", "bg-emerald-200", "bg-sky-200", "bg-indigo-200", "bg-rose-200"]

  const Prefixes: seq<string> := ["戀愛候選人", "心動對象", "緣分之人", "靈魂伴侶", "約會高手", "愛情冒險家"]

  /** How many tags of a list the card shows. */
  const PreviewCount: nat := 3

  // ---------------------------------------------------------------- meet channel

  /** `getMeetChannel`: nothing for an absent or empty channel; "其他: detail"
      for the other channel with a detail; otherwise the text before the
      first ':'. */
  function GetMeetChannel(meetChannel: Option<string>): (r: Option<string>)
    ensures r.None? <==> meetChannel.None? || meetChannel.value == ""
    ensures r.Some? && Split(meetChannel.value, ':')[0] != OtherChannel ==>
              && |r.value| <= |meetChannel.value| && r.value == meetChannel.value[..|r.value|] && ':' !in r.value
              && (|r.value| == |meetChannel.value| || meetChannel.value[|r.value|] == ':')
  {
    if meetChannel.None? || meetChannel.value == "" then None
    else
      var parts := Split(meetChannel.value, ':');
      SplitHead(meetChannel.value, ':');
      if parts[0] == OtherChannel && |parts| > 1 then Some(parts[0] + ": " + parts[1])
      else Some(parts[0])
  }

  /** A channel without ':' is shown as it is. */
  lemma PlainChannel(channel: string)
    requires channel != "" && ':' !in channel
    ensures GetMeetChannel(Some(channel)) == Some(channel)
  {
    SplitNoSep(channel, ':');
  }

  /** "其他:detail" is shown as "其他: detail", and any later ':'-separated
      part is dropped. */
  lemma OtherChannelDetail(detail: string, rest: Option<string>)
    requires ':' !in detail
    ensures var channel := if rest.Some? then OtherChannel + ":" + detail + ":" + rest.value
                           else OtherChannel + ":" + detail;
            GetMeetChannel(Some(channel)) == Some(OtherChannel + ": " + detail)
  {
    assert ':' !in OtherChannel;
    if rest.Some? {
      var tail := detail + ":" + rest.value;
      assert OtherChannel + ":" + detail + ":" + rest.value == OtherChannel + [':'] + tail;
      assert tail == detail + [':'] + rest.value;
      SplitAfter(OtherChannel, ':', tail);
      SplitAfter(detail, ':', rest.value);
    } else {
      assert OtherChannel + ":" + detail == OtherChannel + [':'] + detail;
      SplitAfter(OtherChannel, ':', detail);
      SplitNoSep(detail, ':');
    }
  }

  /** A channel whose first part is not "其他" shows only that first part. */
  lemma ChannelBeforeColon(first: string, rest: string)
    requires ':' !in first && first != OtherChannel
    ensures GetMeetChannel(Some(first + ":" + rest)) == Some(first)
  {
    assert first + ":" + rest == first + [':'] + rest;
    SplitAfter(first, ':', rest);
  }

  // ---------------------------------------------------------------- colour and prefix

  /** `charCodeAt(0)` of one character. */
  function CharCode(c: char): nat
  {
    c as nat
  }

  /** `name.split('').reduce((sum, char) => sum + char.charCodeAt(0), 0)`. */
  function CodeSum(name: string): nat
  {
    if name == [] then 0 else CodeSum(name[..|name| - 1]) + CharCode(name[|name| - 1])
  }

  /** The code sum of a concatenation is the sum of the code sums. */
  lemma {:induction false} CodeSumAppend(a: string, b: string)
    ensures CodeSum(a + b) == CodeSum(a) + CodeSum(b)
    decreases |b|
  {
    if b != [] {
      assert (a + b)[..|a + b| - 1] == a + b[..|b| - 1];
      CodeSumAppend(a, b[..|b| - 1]);
    } else {
      assert a + b == a;
    }
  }

  /** The index both the colour and the prefix are chosen by. */
  function SeedIndex(name: string): (i: nat)
    ensures i < |Colors| && i < |Prefixes|
  {
    CodeSum(name) % |Colors|
  }

  /** `getRandomColor`. */
  function GetRandomColor(name: string): (c: string)
    ensures c in Colors
  {
    Colors[SeedIndex(name)]
  }

  /** `getHumorousPrefix`. */
  function GetHumorousPrefix(name: string): (p: string)
    ensures p in Prefixes
  {
    Prefixes[SeedIndex(name)]
  }

  /** Colour and prefix go together: the same index picks both. */
  lemma ColorAndPrefixAgree(a: string, b: string)
    ensures GetRandomColor(a) == GetRandomColor(b) <==> GetHumorousPrefix(a) == GetHumorousPrefix(b)
  {
    var i, j := SeedIndex(a), SeedIndex(b);
    assert Colors[i] == Colors[j] <==> i == j;
    assert Prefixes[i] == Prefixes[j] <==> i == j;
  }

  /** Reordering the two halves of a name does not change its colour. */
  lemma SwappedNameSameColor(a: string, b: string)
    ensures GetRandomColor(a + b) == GetRandomColor(b + a)
  {
    CodeSumAppend(a, b);
    CodeSumAppend(b, a);
  }

  // ---------------------------------------------------------------- tag preview

  /** The preview of one tag list: the first three tags and, when more exist,
      the "+n" note. */
  datatype TagPreview = TagPreview(shown: seq<string>, more: Option<string>)

  /** The card's rendering of one tag list (nothing is rendered for an empty list). */
  function PreviewTags(tags: seq<string>): (r: Option<TagPreview>)
    ensures r.None? <==> tags == []
    ensures r.Some? ==> r.value.shown <= tags
    ensures r.Some? ==> |r.value.shown| == if |tags| < PreviewCount then |tags| else PreviewCount
    ensures r.Some? ==> (r.value.more.Some? <==> |tags| > PreviewCount)
    ensures r.Some? && r.value.more.None? ==> r.value.shown == tags
  {
    if |tags| == 0 then None
    else
      var shown := tags[..if |tags| < PreviewCount then |tags| else PreviewCount];
      var more := if |tags| > PreviewCount then Some("+" + NatToString(|tags| - PreviewCount)) else None;
      Some(TagPreview(shown, more))
  }

  /** The preview accounts for every tag: the tags shown plus the number in
      the "+n" note give the list's length. */
  lemma PreviewCountsEveryTag(tags: seq<string>)
    requires tags != []
    ensures var p := PreviewTags(tags).value;
            p.more.Some? ==> |p.more.value| >= 2 && p.more.value[0] == '+' &&
                             ParseInt(p.more.value[1..]) == Some(|tags| - |p.shown|)
  {
    var p := PreviewTags(tags).value;
    if p.more.Some? {
      var n := |tags| - PreviewCount;
      assert p.more.value[1..] == NatToString(n);
      ParseIntOfNatToString(n);
    }
  }
}
