// VideoController: the read side of videos. A channel's owner sees all of its videos; anyone
// else sees only those published before now. Both actions only query.
module VideoController {
  import opened Wrappers
  import opened Guids
  import opened Errors
  import opened Database
  import opened Claims

  datatype VideoResponse = VideoResponse(id: Guid, name: string, uploadDate: Instant, publishDate: Option<Instant>)

  function ToResponse(v: Video): (r: VideoResponse)
    ensures r.id == v.id && r.name == v.name && r.uploadDate == v.uploadDate && r.publishDate == v.publishDate
  {
    VideoResponse(v.id, v.name, v.uploadDate, v.publishDate)
  }

  /** PublishDate < now; a video with no publish date is never before anything. */
  predicate PublishedBefore(v: Video, now: Instant)
  {
    v.publishDate.Some? && v.publishDate.value < now
  }

  /** The visibility rule of both actions: the caller owns the channel, or the video is published. */
  predicate Visible(v: Video, ownerId: Guid, callerId: Option<Guid>, now: Instant)
  {
    callerId == Some(ownerId) || PublishedBefore(v, now)
  }

  predicate SortedByUploadDate(s: seq<VideoResponse>)
  {
    forall i, j | 0 <= i < j < |s| :: s[i].uploadDate <= s[j].uploadDate
  }

  predicate Distinct<T(==)>(s: seq<T>)
  {
    forall i, j | 0 <= i < j < |s| :: s[i] != s[j]
  }

  /** Inserts after every response uploaded at the same time or earlier. */
  function InsertByUploadDate(x: VideoResponse, s: seq<VideoResponse>): (r: seq<VideoResponse>)
    requires SortedByUploadDate(s)
    ensures |r| == |s| + 1 && SortedByUploadDate(r) && multiset(r) == multiset(s) + multiset{x}
    ensures r[0] == x || (|s| > 0 && r[0] == s[0])
    ensures forall y | y in r :: y == x || y in s
  {
    if s == [] then [x]
    else if x.uploadDate < s[0].uploadDate then
      PrependSorted(x, s);
      [x] + s
    else
      var rest := InsertByUploadDate(x, s[1..]);
      assert s == [s[0]] + s[1..];
      PrependSorted(s[0], rest);
      [s[0]] + rest
  }

  /** A response uploaded no later than the first of a sorted sequence can go in front of it. */
  lemma PrependSorted(y: VideoResponse, t: seq<VideoResponse>)
    requires SortedByUploadDate(t) && (t == [] || y.uploadDate <= t[0].uploadDate)
    ensures SortedByUploadDate([y] + t)
  {
    forall a, b | 0 <= a < b < |t| + 1 ensures ([y] + t)[a].uploadDate <= ([y] + t)[b].uploadDate {
      assert ([y] + t)[b] == t[b - 1];
      if a > 0 {
        assert ([y] + t)[a] == t[a - 1];
      }
    }
  }



  /** OrderBy(v => v.UploadDate): a sorted permutation. */
  function SortByUploadDate(s: seq<VideoResponse>): (r: seq<VideoResponse>)
    ensures SortedByUploadDate(r) && multiset(r) == multiset(s)
  {
    if s == [] then []
    else
      assert s == [s[0]] + s[1..];
      InsertByUploadDate(s[0], SortByUploadDate(s[1..]))
  }

  /** A sequence is free of repeats exactly when it holds each value at most once. */
  lemma {:induction false} DistinctCounts<T>(s: seq<T>)
    ensures Distinct(s) <==> forall x :: multiset(s)[x] <= 1
  {
    if s != [] {
      DistinctCounts(s[1..]);
      assert s == [s[0]] + s[1..];
      if Distinct(s) {
        assert Distinct(s[1..]) by {
          forall i, j | 0 <= i < j < |s[1..]| ensures s[1..][i] != s[1..][j] {
            assert s[1..][i] == s[i + 1] && s[1..][j] == s[j + 1];
          }
        }
        assert s[0] !in s[1..] by {
          forall k | 0 <= k < |s[1..]| ensures s[1..][k] != s[0] {
            assert s[1..][k] == s[k + 1];
          }
        }
      }
      if forall x :: multiset(s)[x] <= 1 {
        assert forall x :: multiset(s[1..])[x] <= 1 by {
          forall x ensures multiset(s[1..])[x] <= 1 {
            assert multiset(s)[x] == multiset{s[0]}[x] + multiset(s[1..])[x];
          }
        }
        assert multiset(s)[s[0]] == 1 + multiset(s[1..])[s[0]];
        forall i, j | 0 <= i < j < |s| ensures s[i] != s[j] {
          if i == 0 {
            assert s[j] in s[1..];
          } else {
            assert s[i] == s[1..][i - 1] && s[j] == s[1..][j - 1];
          }
        }
      }
    }
  }

  /** Reordering keeps a sequence free of repeats. */
  lemma PermutationKeepsDistinct<T>(a: seq<T>, b: seq<T>)
    requires multiset(a) == multiset(b) && Distinct(a)
    ensures Distinct(b)
  {
    DistinctCounts(a);
    DistinctCounts(b);
  }

  /** The responses of the videos of `vs` the caller may see, in the order of `vs`. */
  function VisibleResponses(vs: seq<Video>, ownerId: Guid, callerId: Option<Guid>, now: Instant): (r: seq<VideoResponse>)
    ensures forall x :: x in r <==> exists v | v in vs :: Visible(v, ownerId, callerId, now) && x == ToResponse(v)
    ensures |r| <= |vs|
  {
    if vs == [] then []
    else
      var rest := VisibleResponses(vs[1..], ownerId, callerId, now);
      assert forall v :: v in vs <==> v == vs[0] || v in vs[1..] by {
        assert vs == [vs[0]] + vs[1..];
      }
      if Visible(vs[0], ownerId, callerId, now) then [ToResponse(vs[0])] + rest else rest
  }

  /** Filtering a list of rows with distinct ids gives responses with distinct ids. */
  lemma {:induction false} VisibleResponsesDistinct(vs: seq<Video>, ownerId: Guid, callerId: Option<Guid>, now: Instant)
    requires forall i, j | 0 <= i < j < |vs| :: vs[i].id != vs[j].id
    ensures forall i, j | 0 <= i < j < |VisibleResponses(vs, ownerId, callerId, now)| ::
      VisibleResponses(vs, ownerId, callerId, now)[i].id != VisibleResponses(vs, ownerId, callerId, now)[j].id
  {
    if vs != [] {
      var rest := VisibleResponses(vs[1..], ownerId, callerId, now);
      VisibleResponsesDistinct(vs[1..], ownerId, callerId, now);
      forall x | x in rest ensures x.id != vs[0].id {
        var v :| v in vs[1..] && Visible(v, ownerId, callerId, now) && x == ToResponse(v);
        var k :| 0 <= k < |vs[1..]| && vs[1..][k] == v;
        assert vs[k + 1] == v;
      }
    }
  }

  /**
   * `list` answers a request for the channel's videos: exactly the channel's videos the
   * caller may see, each once, in ascending upload date.
   */
  ghost predicate ListsVisibleVideos(list: seq<VideoResponse>, videos: map<Guid, Video>, channel: Channel,
                                     callerId: Option<Guid>, now: Instant)
  {
    (forall x :: x in list <==>
       exists id | id in videos && videos[id].channelId == channel.id ::
         Visible(videos[id], channel.ownerId, callerId, now) && x == ToResponse(videos[id])) &&
    (forall i, j | 0 <= i < j < |list| :: list[i].id != list[j].id) &&
    SortedByUploadDate(list)
  }

  /**
   * The list and the single-video rule agree: a video of the channel is in the caller's list
   * exactly when it is visible to the caller.
   */
  lemma ListAgreesWithVisibility(list: seq<VideoResponse>, videos: map<Guid, Video>, channel: Channel,
                                 callerId: Option<Guid>, now: Instant, id: Guid)
    requires VideosKeyed(videos) && ListsVisibleVideos(list, videos, channel, callerId, now)
    requires id in videos && videos[id].channelId == channel.id
    ensures ToResponse(videos[id]) in list <==> Visible(videos[id], channel.ownerId, callerId, now)
  {
    if ToResponse(videos[id]) in list {
      var id' :| id' in videos && videos[id'].channelId == channel.id &&
        Visible(videos[id'], channel.ownerId, callerId, now) && ToResponse(videos[id]) == ToResponse(videos[id']);
      assert videos[id].id == id && videos[id'].id == id';
    }
  }

  /** The owner's list holds every video of the channel. */
  lemma OwnerSeesEverything(list: seq<VideoResponse>, videos: map<Guid, Video>, channel: Channel, now: Instant)
    requires ListsVisibleVideos(list, videos, channel, Some(channel.ownerId), now)
    ensures forall id | id in videos && videos[id].channelId == channel.id :: ToResponse(videos[id]) in list
  {
  }

  /** Nobody but the owner ever sees a video without a publish date. */
  lemma UnpublishedHidden(v: Video, ownerId: Guid, callerId: Option<Guid>, now: Instant)
    requires v.publishDate.None? && callerId != Some(ownerId)
    ensures !Visible(v, ownerId, callerId, now)
  {
  }

  /** Sorting the filtered responses of an enumeration of the channel's rows answers the request. */
  lemma SortedListIsAnswer(vs: seq<Video>, videos: map<Guid, Video>, channel: Channel, callerId: Option<Guid>, now: Instant)
    requires forall v | v in vs :: v.id in videos && videos[v.id] == v && v.channelId == channel.id
    requires forall id | id in videos && videos[id].channelId == channel.id :: videos[id] in vs
    requires forall i, j | 0 <= i < j < |vs| :: vs[i].id != vs[j].id
    ensures ListsVisibleVideos(SortByUploadDate(VisibleResponses(vs, channel.ownerId, callerId, now)),
                               videos, channel, callerId, now)
  {
    var filtered := VisibleResponses(vs, channel.ownerId, callerId, now);
    var list := SortByUploadDate(filtered);
    VisibleResponsesDistinct(vs, channel.ownerId, callerId, now);
    assert Distinct(filtered);
    forall x ensures x in list <==> x in filtered {
      assert x in list <==> x in multiset(list);
    }
    forall x ensures x in filtered <==>
      exists id | id in videos && videos[id].channelId == channel.id ::
        Visible(videos[id], channel.ownerId, callerId, now) && x == ToResponse(videos[id])
    {
      if x in filtered {
        var v :| v in vs && Visible(v, channel.ownerId, callerId, now) && x == ToResponse(v);
        assert videos[v.id] == v;
      }
    }
    PermutationKeepsDistinctIds(filtered, list);
  }

  /**
   * An anonymous reader (a principal with no claims) of a published video: GetVideoFixed
   * answers with the video, while GetVideo as written takes its failure path, whose
   * Unhandled error the middleware turns into a 500.
   */
  lemma AnonymousReaderOfPublishedVideo(v: Video, ownerId: Guid, now: Instant)
    requires PublishedBefore(v, now)
    ensures GetIdOrNull([]).Failure? && StatusCode(Unhandled(GetIdOrNull([]).error.message)) == 500
    ensures GetIdOrNullFixed([]) == None && Visible(v, ownerId, GetIdOrNullFixed([]), now)
  {
    AnonymousGetIdOrNullThrows();
    GetIdOrNullFixedMeaning([]);
  }

  /** Reordering keeps the ids of a sequence of responses distinct. */
  lemma PermutationKeepsDistinctIds(a: seq<VideoResponse>, b: seq<VideoResponse>)
    requires multiset(a) == multiset(b)
    requires forall i, j | 0 <= i < j < |a| :: a[i].id != a[j].id
    ensures forall i, j | 0 <= i < j < |b| :: b[i].id != b[j].id
  {
    assert Distinct(a);
    PermutationKeepsDistinct(a, b);
    forall i, j | 0 <= i < j < |b| ensures b[i].id != b[j].id {
      assert b[i] in multiset(a) && b[j] in multiset(a);
      var p :| 0 <= p < |a| && a[p] == b[i];
      var q :| 0 <= q < |a| && a[q] == b[j];
      assert p != q;
    }
  }

  class VideoController {
    const db: VideoApplicationDb

    constructor (db: VideoApplicationDb)
      ensures this.db == db
    {
      this.db := db;
    }

    /**
     * The videos of the channel whose identifier name is `channelSlug`, as the caller may see
     * them at `now`, in ascending upload date; an unknown slug answers ChannelNotFound. As
     * written, the caller's id is read with the throwing GetIdOrNull once the channel is found,
     * so a caller without an id claim (the actions allow anonymous callers) gets a 500.
     */
    method GetChannelVideos(principal: ClaimsPrincipal, channelSlug: string, now: Instant)
        returns (r: Result<seq<VideoResponse>, ApiError>)
      requires db.Valid()
      ensures (r.Failure? && r.error == ChannelNotFound) <==>
        forall id | id in db.channels :: db.channels[id].identifierName != channelSlug
      ensures r.Failure? && r.error != ChannelNotFound <==>
        (exists id | id in db.channels :: db.channels[id].identifierName == channelSlug) && GetIdOrNull(principal).Failure?
      ensures r.Failure? && r.error != ChannelNotFound ==> r.error == Unhandled(GetIdOrNull(principal).error.message)
      ensures r.Success? ==> GetIdOrNull(principal).Success?
      ensures r.Success? ==> exists id | id in db.channels && db.channels[id].identifierName == channelSlug ::
        ListsVisibleVideos(r.value, db.videos, db.channels[id], GetIdOrNull(principal).value, now)
    {
      hide TablesValid;
      ReadFacts(db.channels, db.uploads, db.uploadChunks, db.videos);
      if forall id | id in db.channels :: db.channels[id].identifierName != channelSlug {
        return Failure(ChannelNotFound);
      }
      var channelId :| channelId in db.channels && db.channels[channelId].identifierName == channelSlug;
      match GetIdOrNull(principal)
      case Failure(e) =>
        return Failure(Unhandled(e.message));
      case Success(callerId) =>
        var list := ChannelVideosFor(db.channels[channelId], callerId, now);
        return Success(list);
    }

    /** GetChannelVideos with the non-throwing lookup: a caller without an id claim is anonymous. */
    method GetChannelVideosFixed(principal: ClaimsPrincipal, channelSlug: string, now: Instant)
        returns (r: Result<seq<VideoResponse>, ApiError>)
      requires db.Valid()
      ensures r.Failure? <==> forall id | id in db.channels :: db.channels[id].identifierName != channelSlug
      ensures r.Failure? ==> r.error == ChannelNotFound
      ensures r.Success? ==> exists id | id in db.channels && db.channels[id].identifierName == channelSlug ::
        ListsVisibleVideos(r.value, db.videos, db.channels[id], GetIdOrNullFixed(principal), now)
    {
      hide TablesValid;
      ReadFacts(db.channels, db.uploads, db.uploadChunks, db.videos);
      if forall id | id in db.channels :: db.channels[id].identifierName != channelSlug {
        return Failure(ChannelNotFound);
      }
      var channelId :| channelId in db.channels && db.channels[channelId].identifierName == channelSlug;
      var list := ChannelVideosFor(db.channels[channelId], GetIdOrNullFixed(principal), now);
      return Success(list);
    }

    /** The query both list actions run once the channel and the caller's id are known. */
    method ChannelVideosFor(channel: Channel, callerId: Option<Guid>, now: Instant) returns (list: seq<VideoResponse>)
      requires db.Valid() && channel.id in db.channels && db.channels[channel.id] == channel
      ensures ListsVisibleVideos(list, db.videos, channel, callerId, now)
    {
      hide TablesValid;
      ReadFacts(db.channels, db.uploads, db.uploadChunks, db.videos);
      var vs := VideosOfChannel(db.videos, channel.id);
      SortedListIsAnswer(vs, db.videos, channel, callerId, now);
      list := SortByUploadDate(VisibleResponses(vs, channel.ownerId, callerId, now));
    }

    /**
     * One video, if the caller may see it at `now`; a hidden video answers like a missing one.
     * As written, the owner test reads the caller's id with the throwing GetIdOrNull before the
     * publish date is looked at, so a caller without an id claim gets a 500 for any existing
     * video, published or not.
     */
    method GetVideo(principal: ClaimsPrincipal, videoId: Guid, now: Instant) returns (r: Result<VideoResponse, ApiError>)
      requires db.Valid()
      ensures videoId !in db.videos ==> r == Failure(VideoNotFound)
      ensures videoId in db.videos ==> db.videos[videoId].channelId in db.channels
      ensures videoId in db.videos && GetIdOrNull(principal).Failure? ==>
        r == Failure(Unhandled(GetIdOrNull(principal).error.message))
      ensures videoId in db.videos && GetIdOrNull(principal).Success? ==>
        var v := db.videos[videoId];
        var visible := Visible(v, db.channels[v.channelId].ownerId, GetIdOrNull(principal).value, now);
        (visible ==> r == Success(ToResponse(v))) && (!visible ==> r == Failure(VideoNotFound))
    {
      hide TablesValid;
      ReadFacts(db.channels, db.uploads, db.uploadChunks, db.videos);
      if videoId !in db.videos {
        return Failure(VideoNotFound);
      }
      var video := db.videos[videoId];
      var channel := db.channels[video.channelId];
      match GetIdOrNull(principal)
      case Failure(e) =>
        return Failure(Unhandled(e.message));
      case Success(callerId) =>
        r := VideoFor(video, channel, callerId, now);
    }

    /** GetVideo with the non-throwing lookup: a caller without an id claim is anonymous. */
    method GetVideoFixed(principal: ClaimsPrincipal, videoId: Guid, now: Instant) returns (r: Result<VideoResponse, ApiError>)
      requires db.Valid()
      ensures videoId !in db.videos ==> r == Failure(VideoNotFound)
      ensures videoId in db.videos ==> db.videos[videoId].channelId in db.channels
      ensures videoId in db.videos ==>
        var v := db.videos[videoId];
        (Visible(v, db.channels[v.channelId].ownerId, GetIdOrNullFixed(principal), now) ==> r == Success(ToResponse(v))) &&
        (!Visible(v, db.channels[v.channelId].ownerId, GetIdOrNullFixed(principal), now) ==> r == Failure(VideoNotFound))
    {
      hide TablesValid;
      ReadFacts(db.channels, db.uploads, db.uploadChunks, db.videos);
      if videoId !in db.videos {
        return Failure(VideoNotFound);
      }
      var video := db.videos[videoId];
      r := VideoFor(video, db.channels[video.channelId], GetIdOrNullFixed(principal), now);
    }

    /** The owner-or-published test both lookups end with. */
    method VideoFor(video: Video, channel: Channel, callerId: Option<Guid>, now: Instant) returns (r: Result<VideoResponse, ApiError>)
      ensures Visible(video, channel.ownerId, callerId, now) ==> r == Success(ToResponse(video))
      ensures !Visible(video, channel.ownerId, callerId, now) ==> r == Failure(VideoNotFound)
    {
      if callerId == Some(channel.ownerId) || PublishedBefore(video, now) {
        return Success(ToResponse(video));
      }
      return Failure(VideoNotFound);
    }
  }

  /** The keys and foreign keys the read actions rely on. */
  lemma ReadFacts(channels: map<Guid, Channel>, uploads: map<Guid, Upload>, chunks: map<Guid, UploadChunk>,
                  videos: map<Guid, Video>)
    requires TablesValid(channels, uploads, chunks, videos)
    ensures ChannelsKeyed(channels) && UniqueChannelNames(channels)
    ensures VideosKeyed(videos) && VideosReferenceChannels(videos, channels)
  {
  }
}
