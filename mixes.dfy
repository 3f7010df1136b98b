/** The rules of the mix handlers that are not database plumbing: link
    classification, track numbering for single and bulk adds, and the
    validation of the track number given for a removal. */
module Mixes {
  import opened Wrappers
  import opened Numbers
  import opened Http

  /** A track of a mix; `kind` is the JSON field `type`, "audio" or "video". */
  datatype Track = Track(number: int, title: string, artist: string, duration: string, link: string, kind: string)

  predicate EndsWith(s: string, suffix: string) {
    |s| >= |suffix| && s[|s| - |suffix|..] == suffix
  }

  /** Whether `str` ends with one of the strings in `slice`. */
  predicate EndsWithAny(slice: seq<string>, str: string) {
    exists i :: 0 <= i < |slice| && EndsWith(str, slice[i])
  }

  /** The helper `contains`: despite its name, it tells whether `str` ends
      with one of the strings in `slice` (case-sensitive), stopping at the
      first that matches. */
  method Contains(slice: seq<string>, str: string) returns (b: bool)
    ensures b <==> EndsWithAny(slice, str)
  {
    var i := 0;
    while i < |slice|
      invariant 0 <= i <= |slice|
      invariant forall j :: 0 <= j < i ==> !EndsWith(str, slice[j])
    {
      var s := slice[i];
      if |str| >= |s| && str[|str| - |s|..] == s {
        return true;
      }
      i := i + 1;
    }
    return false;
  }

  const VideoSuffixes: seq<string> := [".mp4", ".webm", ".m3u8"]

  /** A link is a video stream when it ends in one of the video suffixes. */
  predicate IsVideoLink(link: string) {
    EndsWithAny(VideoSuffixes, link)
  }

  /** The type AddTrackToMix gives a track: the requested one when given;
      otherwise "video" for a non-empty link ending in a video suffix, and
      "audio" for everything else, an empty link included. */
  function TrackType(requested: string, link: string): (t: string)
    ensures requested != "" ==> t == requested
    ensures requested == "" ==> (t == "video" <==> IsVideoLink(link)) && (t == "video" || t == "audio")
  {
    if requested == "" then
      if |link| > 0 then (if IsVideoLink(link) then "video" else "audio") else "audio"
    else requested
  }

  /** The type AddTracksToMix gives a link (there is no requested type). */
  function LinkType(link: string): (t: string)
    ensures t == "video" <==> IsVideoLink(link)
    ensures t == "video" || t == "audio"
  {
    if IsVideoLink(link) then "video" else "audio"
  }

  /** The two handlers classify alike: the single add's extra test for an
      empty link changes nothing, since no video suffix is empty. */
  lemma ClassificationsAgree(link: string)
    ensures TrackType("", link) == LinkType(link)
    ensures IsVideoLink(link) ==> |link| >= 4
  {
    if IsVideoLink(link) {
      var i :| 0 <= i < |VideoSuffixes| && EndsWith(link, VideoSuffixes[i]);
      assert |VideoSuffixes[i]| >= 4;
    }
  }

  /** A link ending in a video suffix is a video. */
  lemma VideoLinkExample()
    ensures TrackType("", "https://cdn/x/live.m3u8") == "video"
  {
    var live := "https://cdn/x/live.m3u8";
    assert EndsWith(live, VideoSuffixes[2]) by {
      assert live[|live| - 5..] == ".m3u8";
    }
  }

  /** Suffixes are matched case-sensitively. */
  lemma UpperCaseSuffixExample()
    ensures TrackType("", "https://cdn/x/clip.MP4") == "audio"
  {
    var clip := "https://cdn/x/clip.MP4";
    assert clip[|clip| - 2] == 'P';
    forall i | 0 <= i < |VideoSuffixes| ensures !EndsWith(clip, VideoSuffixes[i]) {
      var v := VideoSuffixes[i];
      assert v[|v| - 2] != 'P';
    }
  }

  /** Suffixes are matched at the very end: a query string hides one. */
  lemma QueryStringExample()
    ensures TrackType("", "https://cdn/x.mp4?dl=1") == "audio"
  {
    var query := "https://cdn/x.mp4?dl=1";
    assert query[|query| - 1] == '1';
    forall i | 0 <= i < |VideoSuffixes| ensures !EndsWith(query, VideoSuffixes[i]) {
      var v := VideoSuffixes[i];
      assert v[|v| - 1] != '1';
    }
  }

  /** An empty link is audio, and a requested type is kept whatever the link. */
  lemma DefaultAndRequestedExamples()
    ensures TrackType("", "") == "audio"
    ensures TrackType("video", "https://cdn/song.mp3") == "video"
  {
  }

  // ---------------------------------------------------------------------
  // Numbering.
  // ---------------------------------------------------------------------

  /** `COALESCE(MAX(number), 0)` over the numbers of a mix's tracks. */
  function MaxNumber(numbers: seq<int>): (m: int)
    ensures numbers == [] ==> m == 0
    ensures numbers != [] ==> m in numbers
    ensures forall x :: x in numbers ==> x <= m
    decreases |numbers|
  {
    if numbers == [] then 0
    else if |numbers| == 1 then numbers[0]
    else
      var rest := MaxNumber(numbers[1..]);
      assert forall x :: x in numbers ==> x == numbers[0] || x in numbers[1..];
      if numbers[0] >= rest then numbers[0] else rest
  }

  /** The number AddTrackToMix gives a new track: one past the highest in use,
      so it clashes with none, and the first track of a mix is number 1. */
  function NextTrackNumber(numbers: seq<int>): (n: int)
    ensures forall x :: x in numbers ==> x < n
    ensures numbers == [] ==> n == 1
    ensures numbers != [] ==> n - 1 in numbers
  {
    MaxNumber(numbers) + 1
  }

  /** The value the `COALESCE(MAX(number), 0)` query leaves in `maxNumber`:
      `maxQuery` holds the numbers of the mix's tracks, or None when the query
      fails, whose error the handlers ignore, leaving the variable at 0. */
  function ScannedMax(maxQuery: Option<seq<int>>): (n: int)
    ensures maxQuery.None? ==> n == 0
    ensures maxQuery.Some? ==> forall x :: x in maxQuery.value ==> x <= n
    ensures maxQuery.Some? && maxQuery.value != [] ==> n in maxQuery.value
    ensures maxQuery.Some? && maxQuery.value == [] ==> n == 0
  {
    if maxQuery.Some? then MaxNumber(maxQuery.value) else 0
  }

  /** AddTrackToMix: the body as bound (400 when it does not parse), numbered
      and typed; `insertSucceeds` is the outcome of the INSERT (500 when not). */
  function AddTrackToMix(body: Option<Track>, maxQuery: Option<seq<int>>, insertSucceeds: bool): (r: Result<Track, Reply>)
    ensures body.None? ==> r == Err(Error(400, "Invalid request body"))
    ensures body.Some? && !insertSucceeds ==> r == Err(Error(500, "Failed to add track"))
    ensures r.Ok? <==> body.Some? && insertSucceeds
    ensures r.Ok? && maxQuery.Some? ==> r.value.number == NextTrackNumber(maxQuery.value)
    ensures r.Ok? && maxQuery.None? ==> r.value.number == 1
    ensures r.Ok? ==>
      && r.value.kind == TrackType(body.value.kind, body.value.link)
      && r.value.title == body.value.title && r.value.artist == body.value.artist
      && r.value.duration == body.value.duration && r.value.link == body.value.link
  {
    if body.None? then Err(Error(400, "Invalid request body"))
    else
      var track := body.value.(number := ScannedMax(maxQuery) + 1);
      var track := track.(kind := TrackType(track.kind, track.link));
      if insertSucceeds then Ok(track) else Err(Error(500, "Failed to add track"))
  }

  /** When the maximum query fails the new track is numbered 1, even in a mix
      that already has a track 1. */
  lemma FailedMaxQueryReusesNumberOne(t: Track, numbers: seq<int>)
    requires 1 in numbers
    ensures AddTrackToMix(Some(t), None, true).Ok?
    ensures AddTrackToMix(Some(t), None, true).value.number in numbers
    ensures AddTrackToMix(Some(t), Some(numbers), true).value.number !in numbers
  {
    var n := AddTrackToMix(Some(t), Some(numbers), true).value.number;
    assert n == NextTrackNumber(numbers);
  }

  /** The track AddTracksToMix records for the link at index `i`. */
  function BulkTrack(link: string, maxNumber: int, i: int): (t: Track)
    ensures t.number == maxNumber + i + 1 && t.link == link
    ensures t.title == "" && t.artist == "" && t.duration == ""
    ensures t.kind == "video" <==> IsVideoLink(link)
    ensures t.kind == "video" || t.kind == "audio"
  {
    Track(maxNumber + i + 1, "", "", "", link, LinkType(link))
  }

  /** What AddTracksToMix returns for the links: in order, one track per
      non-empty link whose INSERT succeeded (`inserted(i)` for index `i`),
      numbered by its index in the list. */
  function Planned(links: seq<string>, maxNumber: int, inserted: int -> bool): seq<Track>
    decreases |links|
  {
    if links == [] then []
    else
      var i := |links| - 1;
      Planned(links[..i], maxNumber, inserted)
        + (if links[i] != "" && inserted(i) then [BulkTrack(links[i], maxNumber, i)] else [])
  }

  predicate StrictlyIncreasing(tracks: seq<Track>) {
    forall j, k :: 0 <= j < k < |tracks| ==> tracks[j].number < tracks[k].number
  }

  /** Each returned track comes from a non-empty link, numbered by that link's
      index; numbers lie in (maxNumber, maxNumber + |links|] and strictly
      increase; there are at most as many tracks as links. */
  lemma {:induction false} PlannedShape(links: seq<string>, maxNumber: int, inserted: int -> bool)
    ensures var ts := Planned(links, maxNumber, inserted);
      && |ts| <= |links|
      && StrictlyIncreasing(ts)
      && (forall j :: 0 <= j < |ts| ==> maxNumber < ts[j].number <= maxNumber + |links|)
      && (forall j :: 0 <= j < |ts| ==>
            exists i :: 0 <= i < |links| && links[i] != "" && inserted(i) && ts[j] == BulkTrack(links[i], maxNumber, i))
    decreases |links|
  {
    if links != [] {
      var i := |links| - 1;
      var prefix := links[..i];
      PlannedShape(prefix, maxNumber, inserted);
      var before := Planned(prefix, maxNumber, inserted);
      var ts := Planned(links, maxNumber, inserted);
      assert forall j :: 0 <= j < |before| ==> ts[j] == before[j];
      forall j | 0 <= j < |ts|
        ensures exists i' :: 0 <= i' < |links| && links[i'] != "" && inserted(i') && ts[j] == BulkTrack(links[i'], maxNumber, i')
      {
        if j < |before| {
          var i' :| 0 <= i' < |prefix| && prefix[i'] != "" && inserted(i') && before[j] == BulkTrack(prefix[i'], maxNumber, i');
          assert links[i'] == prefix[i'];
        } else {
          assert ts[j] == BulkTrack(links[i], maxNumber, i);
        }
      }
    }
  }

  /** Every non-empty link whose INSERT succeeded gets its track. */
  lemma {:induction false} PlannedComplete(links: seq<string>, maxNumber: int, inserted: int -> bool, i: int)
    requires 0 <= i < |links| && links[i] != "" && inserted(i)
    ensures BulkTrack(links[i], maxNumber, i) in Planned(links, maxNumber, inserted)
    decreases |links|
  {
    var last := |links| - 1;
    if i < last {
      PlannedComplete(links[..last], maxNumber, inserted, i);
      assert links[..last][i] == links[i];
    }
  }

  /** Skipped empty links leave gaps: with all inserts succeeding, links
      ["a", "", "b"] after maximum 7 get numbers 8 and 10. */
  lemma GapExample(inserted: int -> bool)
    requires forall i :: inserted(i)
    ensures Planned(["a", "", "b"], 7, inserted) == [BulkTrack("a", 7, 0), BulkTrack("b", 7, 2)]
    ensures BulkTrack("a", 7, 0).number == 8 && BulkTrack("b", 7, 2).number == 10
  {
    var links := ["a", "", "b"];
    assert links[..2] == ["a", ""];
    assert links[..2][..1] == ["a"];
    assert links[..2][..1][..0] == [];
    assert Planned(["a"], 7, inserted) == [BulkTrack("a", 7, 0)];
    assert Planned(["a", ""], 7, inserted) == [BulkTrack("a", 7, 0)];
  }

  /** The loop of AddTracksToMix: each non-empty link in order, typed by its
      suffix and numbered from `maxNumber` by its index in the list, kept when
      its INSERT succeeded. */
  method AddLinks(links: seq<string>, maxNumber: int, inserted: int -> bool) returns (tracks: seq<Track>)
    ensures tracks == Planned(links, maxNumber, inserted)
  {
    tracks := [];
    var i := 0;
    while i < |links|
      invariant 0 <= i <= |links|
      invariant tracks == Planned(links[..i], maxNumber, inserted)
    {
      assert links[..i + 1][..i] == links[..i];
      var link := links[i];
      if link == "" {
        i := i + 1;
        continue;
      }

      var trackType := "audio";
      var video := Contains(VideoSuffixes, link);
      if video {
        trackType := "video";
      }
      var trackNumber := maxNumber + i + 1;

      if inserted(i) {
        assert Track(trackNumber, "", "", "", link, trackType) == BulkTrack(link, maxNumber, i);
        tracks := tracks + [Track(trackNumber, "", "", "", link, trackType)];
      }
      i := i + 1;
    }
    assert links[..i] == links;
  }

  /** AddTracksToMix: 400 for a body that does not parse (None) and for an
      empty list; otherwise add each non-empty link in order, numbered from
      the scanned maximum by its index in the list, and return the tracks
      whose INSERT succeeded. */
  method AddTracksToMix(body: Option<seq<string>>, maxQuery: Option<seq<int>>, inserted: int -> bool)
    returns (r: Result<seq<Track>, Reply>)
    ensures body.None? ==> r == Err(Error(400, "Invalid request body"))
    ensures body == Some([]) ==> r == Err(Error(400, "No track links provided"))
    ensures r.Ok? <==> body.Some? && body.value != []
    ensures r.Ok? ==> r.value == Planned(body.value, ScannedMax(maxQuery), inserted)
    ensures r.Ok? ==> |r.value| <= |body.value| && StrictlyIncreasing(r.value)
    ensures r.Ok? ==> forall j :: 0 <= j < |r.value| ==>
      r.value[j].link != "" && ScannedMax(maxQuery) < r.value[j].number
  {
    if body.None? {
      return Err(Error(400, "Invalid request body"));
    }
    var links := body.value;
    if |links| == 0 {
      return Err(Error(400, "No track links provided"));
    }

    var maxNumber := 0;
    if maxQuery.Some? {
      maxNumber := MaxNumber(maxQuery.value);
    }

    var tracks := AddLinks(links, maxNumber, inserted);
    PlannedShape(links, maxNumber, inserted);
    forall j | 0 <= j < |tracks| ensures tracks[j].link != "" {
      var k :| 0 <= k < |links| && links[k] != "" && inserted(k) && tracks[j] == BulkTrack(links[k], maxNumber, k);
    }
    r := Ok(tracks);
  }

  // ---------------------------------------------------------------------
  // Removal.
  // ---------------------------------------------------------------------

  /** RemoveTrackFromMix's validation of the `track_number` query parameter. */
  function ParseTrackNumber(query: string): (r: Result<int, Reply>)
    ensures query == "" ==> r == Err(Error(400, "Track number required"))
    ensures query != "" && Atoi(query).None? ==> r == Err(Error(400, "Invalid track number"))
    ensures r.Ok? <==> Atoi(query).Some?
    ensures r.Ok? ==> r.value == Atoi(query).value
  {
    if query == "" then Err(Error(400, "Track number required"))
    else
      match Atoi(query)
      case None => Err(Error(400, "Invalid track number"))
      case Some(n) => Ok(n)
  }

  /** RemoveTrackFromMix: the validated number, then the DELETE of that
      track (`deleted` is the count of rows it removed, None when it failed):
      500 on failure, 404 when no track had the number, otherwise the reply
      echoes the query text as given (so "+07" comes back as "+07"). */
  function RemoveTrackFromMix(query: string, deleted: Option<nat>): (r: Result<string, Reply>)
    ensures ParseTrackNumber(query).Err? ==> r == Err(ParseTrackNumber(query).error)
    ensures ParseTrackNumber(query).Ok? && deleted.None? ==> r == Err(Error(500, "Failed to remove track"))
    ensures ParseTrackNumber(query).Ok? && deleted == Some(0) ==> r == Err(Error(404, "Track not found"))
    ensures r.Ok? <==> Atoi(query).Some? && deleted.Some? && deleted.value > 0
    ensures r.Ok? ==> r.value == query
  {
    match ParseTrackNumber(query)
    case Err(e) => Err(e)
    case Ok(_) =>
      match deleted
      case None => Err(Error(500, "Failed to remove track"))
      case Some(rows) => if rows == 0 then Err(Error(404, "Track not found")) else Ok(query)
  }

  /** A signed or zero-padded parameter selects the track by its value, while
      the reply repeats the text as given; text that is not a decimal integer
      is refused. */
  lemma RemovalParameterExamples()
    ensures ParseTrackNumber("+07") == Ok(7)
    ensures RemoveTrackFromMix("+07", Some(1)) == Ok("+07")
    ensures ParseTrackNumber("7a") == Err(Error(400, "Invalid track number"))
    ensures ParseTrackNumber("-") == Err(Error(400, "Invalid track number"))
  {
    assert "+07"[1..] == "07";
    assert DigitsValue("07") == 7 by {
      assert "07"[..1] == "0";
      assert "0"[..0] == [];
      assert DigitsValue("0") == 0;
    }
    assert !AllDigits("7a") by { assert !IsDigit("7a"[1]); }
    assert "-"[1..] == [];
  }

  /** Every number the add handlers can assign (any natural that fits a
      64-bit integer), written in decimal, is accepted for removal. */
  lemma AssignedNumbersAreRemovable(n: nat)
    requires n <= MaxInt64
    ensures ParseTrackNumber(Decimal(n)) == Ok(n)
  {
    AtoiDecimal(n);
  }
}
