// ChannelController: creating a channel, listing the caller's channels and marking a channel
// for deletion, over the Channels table (two unique name columns) and the message bus.
module ChannelController {
  import opened Wrappers
  import opened Guids
  import opened Errors
  import opened Text
  import opened Database
  import opened Bus

  /** The messages the controller puts on the bus: an event it publishes and a command it sends. */
  datatype ChannelMessage =
    | ChannelCreated(id: Guid, displayName: string, identifierName: string, ownerId: Guid)
    | DeleteChannelAsync(channelId: Guid)

  datatype CreateChannelRequest = CreateChannelRequest(identifierName: string, displayName: string, description: string)

  datatype ChannelResponse = ChannelResponse(id: Guid, identifierName: string, displayName: string, description: string)

  predicate IsAsciiLetterOrDigit(c: char)
  {
    'a' <= c <= 'z' || 'A' <= c <= 'Z' || '0' <= c <= '9'
  }

  /**
   * The whole string matches [a-zA-Z0-9][a-zA-Z0-9 \-]+[a-zA-Z0-9]: a letter or digit at
   * both ends and letters, digits, spaces or hyphens (at least one) between them.
   */
  predicate MatchesIdentifierPattern(s: string)
  {
    |s| >= 3 && IsAsciiLetterOrDigit(s[0]) && IsAsciiLetterOrDigit(s[|s| - 1]) &&
    forall i | 0 < i < |s| - 1 :: IsAsciiLetterOrDigit(s[i]) || s[i] == ' ' || s[i] == '-'
  }

  /**
   * The whole string matches \S.+\S over its UTF-16 code units: at least three units, no white
   * space at either end, and no line feed (the one character `.` does not match) between them.
   * A surrogate is not white space and `.` matches it, so a character above U+FFFF at either end
   * passes, and one in the middle fills two of the units `.+` needs.
   */
  predicate MatchesDisplayPattern(s: string)
  {
    Utf16Length(s) >= 3 && !IsWhiteSpace(s[0]) && !IsWhiteSpace(s[|s| - 1]) &&
    forall i | 0 < i < |s| - 1 :: s[i] != '\n'
  }

  /**
   * The validation attributes of CreateChannelRequest.IdentifierName: MinLength(5) and
   * MaxLength(50), which count UTF-16 code units, and the pattern.
   */
  predicate ValidIdentifierName(s: string)
  {
    5 <= Utf16Length(s) <= 50 && MatchesIdentifierPattern(s)
  }

  /**
   * The validation attributes of CreateChannelRequest.DisplayName: MinLength(5) and
   * MaxLength(100), which count UTF-16 code units, and the pattern.
   */
  predicate ValidDisplayName(s: string)
  {
    5 <= Utf16Length(s) <= 100 && MatchesDisplayPattern(s)
  }

  /** An identifier name is ASCII, so its length in code units is its number of characters. */
  lemma ValidIdentifierNameLength(s: string)
    ensures ValidIdentifierName(s) <==> 5 <= |s| <= 50 && MatchesIdentifierPattern(s)
  {
    if MatchesIdentifierPattern(s) {
      assert forall i | 0 <= i < |s| :: s[i] as int <= 0xFFFF by {
        forall i | 0 <= i < |s| ensures s[i] as int <= 0xFFFF {
          if 0 < i < |s| - 1 {
            assert IsAsciiLetterOrDigit(s[i]) || s[i] == ' ' || s[i] == '-';
          }
        }
      }
    }
  }

  /** A string of `n` copies of a character above U+FFFF is 2n code units long. */
  lemma {:induction false} AstralRunLength(n: nat, c: char)
    requires c as int > 0xFFFF
    ensures Utf16Length(seq(n, _ => c)) == 2 * n
  {
    if n > 0 {
      var s := seq(n, _ => c);
      assert s[..n - 1] == seq(n - 1, _ => c);
      AstralRunLength(n - 1, c);
    }
  }

  /**
   * Lengths are counted in code units: three emoji (six units) make a valid display name,
   * fifty-one (102 units) are too long, though both are fewer than 100 characters.
   */
  lemma DisplayNameCountsCodeUnits()
    ensures var three := seq(3, _ => '\U{1F600}'); |three| == 3 && ValidDisplayName(three)
    ensures var many := seq(51, _ => '\U{1F600}'); |many| == 51 && !ValidDisplayName(many)
  {
    AstralRunLength(3, '\U{1F600}');
    AstralRunLength(51, '\U{1F600}');
  }

  predicate ValidRequest(request: CreateChannelRequest)
  {
    ValidIdentifierName(request.identifierName) && ValidDisplayName(request.displayName)
  }

  /**
   * Saving the new channel breaks a unique constraint: its id is taken (the primary key), or
   * another channel has its identifier name or its display name (the two unique indexes).
   */
  predicate Clashes(channels: map<Guid, Channel>, newId: Guid, request: CreateChannelRequest)
  {
    newId in channels ||
    exists id | id in channels ::
      channels[id].identifierName == request.identifierName || channels[id].displayName == request.displayName
  }

  /** The channel row CreateChannel inserts; MarkedForDeletion keeps the entity's default, true. */
  function NewChannel(id: Guid, request: CreateChannelRequest, ownerId: Guid, now: Instant): (c: Channel)
    ensures c.id == id && c.ownerId == ownerId && c.createdAt == now && c.markedForDeletion
    ensures c.identifierName == request.identifierName && c.displayName == request.displayName
    ensures c.description == request.description
  {
    Channel(id, request.identifierName, request.displayName, request.description, ownerId, true, now)
  }

  function CreateResponse(c: Channel): (r: ChannelResponse)
    ensures r.id == c.id && r.identifierName == c.identifierName && r.displayName == c.displayName
    ensures r.description == c.description
  {
    ChannelResponse(c.id, c.identifierName, c.displayName, c.description)
  }

  /** Inserting a channel that clashes with no row keeps every key, index and foreign key. */
  lemma InsertChannelKeepsValid(channels: map<Guid, Channel>, uploads: map<Guid, Upload>,
                                chunks: map<Guid, UploadChunk>, videos: map<Guid, Video>, c: Channel)
    requires TablesValid(channels, uploads, chunks, videos)
    requires !Clashes(channels, c.id, CreateChannelRequest(c.identifierName, c.displayName, c.description))
    ensures TablesValid(channels[c.id := c], uploads, chunks, videos)
  {
    var channels' := channels[c.id := c];
    assert UniqueChannelNames(channels') by {
      forall a, b | a in channels' && b in channels' && a != b
        ensures channels'[a].identifierName != channels'[b].identifierName
        ensures channels'[a].displayName != channels'[b].displayName
      {
        if a == c.id { assert b in channels; } else if b == c.id { assert a in channels; }
      }
    }
  }

  /** Marking a channel for deletion keeps every key, index and foreign key. */
  lemma MarkChannelKeepsValid(channels: map<Guid, Channel>, uploads: map<Guid, Upload>,
                              chunks: map<Guid, UploadChunk>, videos: map<Guid, Video>, id: Guid)
    requires TablesValid(channels, uploads, chunks, videos) && id in channels
    ensures TablesValid(channels[id := channels[id].(markedForDeletion := true)], uploads, chunks, videos)
  {
    var channels' := channels[id := channels[id].(markedForDeletion := true)];
    assert UniqueChannelNames(channels') by {
      forall a, b | a in channels' && b in channels' && a != b
        ensures channels'[a].identifierName != channels'[b].identifierName
        ensures channels'[a].displayName != channels'[b].displayName
      {
        assert channels'[a].identifierName == channels[a].identifierName;
        assert channels'[b].displayName == channels[b].displayName;
      }
    }
  }

  /**
   * Once a channel has been created, any later request that reuses its identifier name or
   * its display name clashes, whatever id it is given: the names stay unique.
   */
  lemma CreatedNamesAreTaken(channels: map<Guid, Channel>, c: Channel, newId: Guid, request: CreateChannelRequest)
    requires request.identifierName == c.identifierName || request.displayName == c.displayName
    ensures Clashes(channels[c.id := c], newId, request)
  {
    var channels' := channels[c.id := c];
    assert c.id in channels' && channels'[c.id] == c;
  }

  /** The responses list exactly the channels the user owns, each once. */
  ghost predicate ListsOwnedChannels(responses: seq<ChannelResponse>, channels: map<Guid, Channel>, userId: Guid)
  {
    (forall x :: x in responses <==>
       exists id | id in channels && channels[id].ownerId == userId :: x == CreateResponse(channels[id])) &&
    (forall i, j | 0 <= i < j < |responses| :: responses[i].id != responses[j].id)
  }

  /** Responses built from the ids of the owned rows, each id once and none missed, list exactly the owned channels. */
  lemma OwnedListing(ids: seq<Guid>, channels: map<Guid, Channel>, userId: Guid)
    requires ChannelsKeyed(channels)
    requires forall id | id in ids :: id in channels && channels[id].ownerId == userId
    requires forall id | id in channels && channels[id].ownerId == userId :: id in ids
    requires forall i, j | 0 <= i < j < |ids| :: ids[i] != ids[j]
    ensures ListsOwnedChannels(seq(|ids|, i requires 0 <= i < |ids| => CreateResponse(channels[ids[i]])), channels, userId)
  {
    var responses := seq(|ids|, i requires 0 <= i < |ids| => CreateResponse(channels[ids[i]]));
    forall x ensures x in responses <==>
      exists id | id in channels && channels[id].ownerId == userId :: x == CreateResponse(channels[id])
    {
      if x in responses {
        var i :| 0 <= i < |responses| && responses[i] == x;
        assert ids[i] in ids;
      }
      if exists id | id in channels && channels[id].ownerId == userId :: x == CreateResponse(channels[id]) {
        var id :| id in channels && channels[id].ownerId == userId && x == CreateResponse(channels[id]);
        var i :| 0 <= i < |ids| && ids[i] == id;
        assert responses[i] == x;
      }
    }
    forall i, j | 0 <= i < j < |responses| ensures responses[i].id != responses[j].id {
      assert ids[i] in ids && ids[j] in ids;
    }
  }

  class ChannelController {
    const db: VideoApplicationDb
    const bus: Outbox<ChannelMessage>

    ghost predicate Valid()
      reads this, db
    {
      db.Valid()
    }

    constructor (db: VideoApplicationDb, bus: Outbox<ChannelMessage>)
      requires db.Valid()
      ensures Valid() && this.db == db && this.bus == bus
    {
      this.db := db;
      this.bus := bus;
    }

    /**
     * Creates a channel owned by the caller under the fresh id `newId`, stamped with the
     * clock's `now`. A request that breaks a validation attribute is refused before anything
     * runs (naming the first offending field); one whose save breaks a unique constraint
     * answers ChannelAlreadyExists. ChannelCreated is published only once the row is saved.
     */
    method CreateChannel(userId: Guid, request: CreateChannelRequest, newId: Guid, now: Instant)
        returns (r: Result<ChannelResponse, ApiError>)
      requires Valid()
      modifies db, bus
      ensures Valid()
      ensures db.uploads == old(db.uploads) && db.uploadChunks == old(db.uploadChunks) && db.videos == old(db.videos)
      ensures db.audioTracks == old(db.audioTracks) && db.videoTracks == old(db.videoTracks)
      ensures bus.sent == old(bus.sent)
      ensures !ValidIdentifierName(request.identifierName) ==> r == Failure(ValidationFailed("IdentifierName"))
      ensures ValidIdentifierName(request.identifierName) && !ValidDisplayName(request.displayName) ==>
        r == Failure(ValidationFailed("DisplayName"))
      ensures ValidRequest(request) && Clashes(old(db.channels), newId, request) ==> r == Failure(ChannelAlreadyExists)
      ensures r.Failure? ==> db.channels == old(db.channels) && bus.published == old(bus.published)
      ensures ValidRequest(request) && !Clashes(old(db.channels), newId, request) ==>
        r == Success(ChannelResponse(newId, request.identifierName, request.displayName, request.description)) &&
        db.channels == old(db.channels)[newId := NewChannel(newId, request, userId, now)] &&
        bus.published == old(bus.published) +
          [ChannelCreated(newId, request.displayName, request.identifierName, userId)]
      ensures r.Success? ==>
        newId in db.channels && db.channels[newId].ownerId == userId && db.channels[newId].markedForDeletion
    {
      if !ValidIdentifierName(request.identifierName) {
        return Failure(ValidationFailed("IdentifierName"));
      }
      if !ValidDisplayName(request.displayName) {
        return Failure(ValidationFailed("DisplayName"));
      }
      var channel := NewChannel(newId, request, userId, now);
      if Clashes(db.channels, newId, request) {
        return Failure(ChannelAlreadyExists);
      }
      InsertChannelKeepsValid(db.channels, db.uploads, db.uploadChunks, db.videos, channel);
      db.channels := db.channels[newId := channel];
      bus.Publish(ChannelCreated(channel.id, channel.displayName, channel.identifierName, channel.ownerId));
      r := Success(CreateResponse(channel));
    }

    /** The caller's channels, each once, in the order the database returns them (no ORDER BY is given). */
    method GetMyChannels(userId: Guid) returns (responses: seq<ChannelResponse>)
      requires Valid()
      ensures ListsOwnedChannels(responses, db.channels, userId)
    {
      hide TablesValid;
      TablesFacts(db.channels, db.uploads, db.uploadChunks, db.videos);
      var channels := db.channels;
      var left := set id | id in channels && channels[id].ownerId == userId;
      var ids: seq<Guid> := [];
      while left != {}
        invariant forall id | id in left :: id in channels && channels[id].ownerId == userId
        invariant forall id | id in ids :: id in channels && channels[id].ownerId == userId && id !in left
        invariant forall id | id in channels && channels[id].ownerId == userId :: id in left || id in ids
        invariant forall i, j | 0 <= i < j < |ids| :: ids[i] != ids[j]
        decreases |left|
      {
        var id :| id in left;
        ids := ids + [id];
        left := left - {id};
      }
      responses := seq(|ids|, i requires 0 <= i < |ids| => CreateResponse(channels[ids[i]]));
      OwnedListing(ids, channels, userId);
    }

    /**
     * Marks the channel for deletion and sends the command that deletes it. An unknown id
     * returns quietly with nothing changed and nothing sent; a caller who does not own the
     * channel gets NotChannelOwner.
     */
    method DeleteChannel(userId: Guid, id: Guid) returns (r: Result<(), ApiError>)
      requires Valid()
      modifies db, bus
      ensures Valid()
      ensures db.uploads == old(db.uploads) && db.uploadChunks == old(db.uploadChunks) && db.videos == old(db.videos)
      ensures db.audioTracks == old(db.audioTracks) && db.videoTracks == old(db.videoTracks)
      ensures bus.published == old(bus.published)
      ensures id !in old(db.channels) ==>
        r == Success(()) && db.channels == old(db.channels) && bus.sent == old(bus.sent)
      ensures id in old(db.channels) && old(db.channels)[id].ownerId != userId ==>
        r == Failure(NotChannelOwner) && db.channels == old(db.channels) && bus.sent == old(bus.sent)
      ensures id in old(db.channels) && old(db.channels)[id].ownerId == userId ==>
        r == Success(()) &&
        db.channels == old(db.channels)[id := old(db.channels)[id].(markedForDeletion := true)] &&
        bus.sent == old(bus.sent) + [DeleteChannelAsync(id)]
    {
      if id !in db.channels {
        return Success(());
      }
      var channel := db.channels[id];
      if channel.ownerId != userId {
        return Failure(NotChannelOwner);
      }
      TablesFacts(db.channels, db.uploads, db.uploadChunks, db.videos);
      MarkChannelKeepsValid(db.channels, db.uploads, db.uploadChunks, db.videos, id);
      db.channels := db.channels[id := channel.(markedForDeletion := true)];
      bus.Send(DeleteChannelAsync(channel.id));
      r := Success(());
    }
  }

  /** The keys the channel actions rely on. */
  lemma TablesFacts(channels: map<Guid, Channel>, uploads: map<Guid, Upload>, chunks: map<Guid, UploadChunk>,
                    videos: map<Guid, Video>)
    requires TablesValid(channels, uploads, chunks, videos)
    ensures ChannelsKeyed(channels) && UniqueChannelNames(channels)
  {
  }
}
