/**
 * The request handlers of backend/server.py over in-memory tables: `users`
 * keyed by email and `videos` in insertion order. Each handler that needs a
 * bearer token runs `Authenticate` first and answers 401 when it fails; the
 * video handlers then act only on the caller's own records.
 */
module Server {
  import opened Wrappers
  import opened Models
  import opened Auth
  import opened VideoTable

  /** Each user is stored under its own email. */
  ghost predicate KeyedByEmail(users: map<string, User>)
  {
    forall e :: e in users ==> users[e].email == e
  }

  /** No two stored users share an id (ids come from `uuid4`). */
  ghost predicate UniqueUserIds(users: map<string, User>)
  {
    forall e1, e2 :: e1 in users && e2 in users && users[e1].id == users[e2].id ==> e1 == e2
  }

  /** No stored user has the id `id`. */
  ghost predicate FreshUserId(users: map<string, User>, id: string)
  {
    forall e :: e in users ==> users[e].id != id
  }

  class Backend {
    /** The token scheme (`jwt` with `SECRET_KEY`). */
    const codec: TokenCodec
    /** The password scheme (`pwd_context`). */
    const passwords: PasswordScheme
    /** The `users` collection, keyed by email. */
    var users: map<string, User>
    /** The `videos` collection, in insertion order. */
    var videos: seq<VideoRecord>

    ghost predicate Valid()
      reads this
    {
      && codec.Invertible()
      && passwords.Sound()
      && KeyedByEmail(users)
      && UniqueUserIds(users)
      && UniqueIds(videos)
    }

    /** A backend over empty collections. */
    constructor (codec: TokenCodec, passwords: PasswordScheme)
      requires codec.Invertible() && passwords.Sound()
      ensures Valid()
      ensures this.codec == codec && this.passwords == passwords
      ensures users == map[] && videos == []
    {
      this.codec := codec;
      this.passwords := passwords;
      users := map[];
      videos := [];
    }

    /** `create_access_token`: sign a copy of `data` extended with its expiry. */
    method CreateAccessToken(data: Claims, expiresDelta: Option<int>, now: int) returns (token: string)
      requires codec.Invertible()
      ensures codec.decode(token) == Some(AccessClaims(data, expiresDelta, now))
    {
      var toEncode := data;
      var expire: int;
      if expiresDelta.Some? && expiresDelta.value != 0 {
        expire := now + expiresDelta.value;
      } else {
        expire := now + DefaultExpireMinutes;
      }
      toEncode := toEncode[ExpiryClaim := Instant(expire)];
      token := codec.encode(toEncode);
    }

    /**
     * `register`: refuse an email that is already stored; otherwise store a
     * new user holding the hash of the password, and hand out a bearer token
     * for the email.
     */
    method Register(email: string, password: string, phone: Option<string>, newId: string, now: int)
      returns (r: Result<TokenResponse, HttpError>)
      requires Valid()
      requires FreshUserId(users, newId)
      modifies this
      ensures Valid()
      ensures videos == old(videos)
      ensures email in old(users) ==> r == Err(EmailTaken) && users == old(users)
      ensures email !in old(users) ==>
                && users == old(users)[email := User(newId, email, phone, passwords.hash(password), now)]
                && r.Ok?
      ensures r.Ok? ==> r.value.tokenType == BearerType
      ensures r.Ok? ==> codec.decode(r.value.accessToken) == Some(LoginClaims(email, now))
      ensures r.Ok? ==> Authenticate(users, codec, r.value.accessToken) == Ok(users[email])
      ensures r.Ok? ==> CheckPassword(users, passwords, email, password) == Ok(users[email])
    {
      if email in users {
        return Err(EmailTaken);
      }
      var hashed := passwords.hash(password);
      var user := User(newId, email, phone, hashed, now);
      users := users[email := user];
      var token := CreateAccessToken(map[SubjectClaim := Text(email)], Some(AccessTokenExpireMinutes), now);
      IssuedTokenAuthenticates(users, codec, token, email, now);
      StoredHashAcceptsPassword(users, passwords, email, password);
      r := Ok(TokenResponse(token, BearerType));
    }

    /**
     * `login`: an unknown email and a wrong password give the same 401;
     * otherwise a bearer token for the email. Nothing is stored.
     */
    method Login(email: string, password: string, now: int) returns (r: Result<TokenResponse, HttpError>)
      requires Valid()
      ensures r.Err? <==> email !in users || !passwords.verify(password, users[email].hashedPassword)
      ensures r.Err? ==> r.error == BadLogin
      ensures r.Ok? ==> r.value.tokenType == BearerType
      ensures r.Ok? ==> codec.decode(r.value.accessToken) == Some(LoginClaims(email, now))
      ensures r.Ok? ==> Authenticate(users, codec, r.value.accessToken) == Ok(users[email])
    {
      var check := CheckPassword(users, passwords, email, password);
      if check.Err? {
        return Err(check.error);
      }
      var token := CreateAccessToken(map[SubjectClaim := Text(email)], Some(AccessTokenExpireMinutes), now);
      IssuedTokenAuthenticates(users, codec, token, email, now);
      r := Ok(TokenResponse(token, BearerType));
    }

    /** `get_current_user_info`: the caller's id, email, phone and creation time. */
    method Me(token: string) returns (r: Result<UserInfo, HttpError>)
      requires Valid()
      ensures r.Err? <==> Authenticate(users, codec, token).Err?
      ensures r.Err? ==> r.error == BadCredentials
      ensures r.Ok? ==> r.value == UserInfoOf(Authenticate(users, codec, token).value)
      ensures r.Ok? ==> r.value.email in users && users[r.value.email].id == r.value.id
      ensures r.Ok? ==> Subject(codec.decode(token).value) == Some(r.value.email)
    {
      var current := Authenticate(users, codec, token);
      if current.Err? {
        return Err(current.error);
      }
      r := Ok(UserInfoOf(current.value));
    }

    /**
     * `upload_video`: store one record owned by the caller, with the
     * upload's fields copied, the fresh id and the upload time.
     */
    method UploadVideo(token: string, video: VideoUpload, newId: string, now: int)
      returns (r: Result<UploadResponse, HttpError>)
      requires Valid()
      requires FreshId(videos, newId)
      modifies this
      ensures Valid()
      ensures users == old(users)
      ensures Authenticate(users, codec, token).Err? ==> r == Err(BadCredentials) && videos == old(videos)
      ensures Authenticate(users, codec, token).Ok? ==>
                var owner := Authenticate(users, codec, token).value.id;
                && r == Ok(UploadResponse(UploadedMessage, newId))
                && videos == old(videos) + [VideoRecord(newId, owner, video.videoData, video.locationLat,
                                                        video.locationLng, video.phoneNumber, now)]
                && (|OwnedBy(old(videos), owner)| < ListLimit ==>
                      exists s :: s in ListVideos(videos, owner) && s.id == newId)
    {
      var current := Authenticate(users, codec, token);
      if current.Err? {
        return Err(current.error);
      }
      var record := VideoRecord(newId, current.value.id, video.videoData, video.locationLat,
                                video.locationLng, video.phoneNumber, now);
      AppendFreshKeepsIdsUnique(videos, record);
      if |OwnedBy(videos, record.userId)| < ListLimit {
        UploadIsListed(videos, record);
      }
      videos := videos + [record];
      r := Ok(UploadResponse(UploadedMessage, newId));
    }

    /** `get_user_videos`: the list view of the caller's records. */
    method GetUserVideos(token: string) returns (r: Result<seq<VideoSummary>, HttpError>)
      requires Valid()
      ensures r.Err? <==> Authenticate(users, codec, token).Err?
      ensures r.Err? ==> r.error == BadCredentials
      ensures r.Ok? ==> r.value == ListVideos(videos, Authenticate(users, codec, token).value.id)
    {
      var current := Authenticate(users, codec, token);
      if current.Err? {
        return Err(current.error);
      }
      r := Ok(ListVideos(videos, current.value.id));
    }

    /**
     * `get_video`: the caller's record with this id, payload included. A
     * missing id and another user's video both give 404.
     */
    method GetVideo(token: string, videoId: string) returns (r: Result<VideoRecord, HttpError>)
      requires Valid()
      ensures Authenticate(users, codec, token).Err? ==> r == Err(BadCredentials)
      ensures Authenticate(users, codec, token).Ok? ==>
                var owner := Authenticate(users, codec, token).value.id;
                && (r.Ok? <==> exists v :: v in videos && Matches(v, videoId, owner))
                && (r.Ok? ==> r.value in videos && r.value.id == videoId && r.value.userId == owner)
                && (r.Err? ==> r.error == VideoNotFound)
    {
      var current := Authenticate(users, codec, token);
      if current.Err? {
        return Err(current.error);
      }
      var found := FirstMatch(videos, videoId, current.value.id);
      if found.None? {
        return Err(VideoNotFound);
      }
      r := Ok(videos[found.value]);
    }

    /**
     * `delete_video`: remove the caller's record with this id and nothing
     * else. A missing id and another user's video both give 404 and change
     * nothing.
     */
    method DeleteVideo(token: string, videoId: string) returns (r: Result<string, HttpError>)
      requires Valid()
      modifies this
      ensures Valid()
      ensures users == old(users)
      ensures Authenticate(users, codec, token).Err? ==> r == Err(BadCredentials) && videos == old(videos)
      ensures Authenticate(users, codec, token).Ok? ==>
                var owner := Authenticate(users, codec, token).value.id;
                && (r.Ok? <==> exists v :: v in old(videos) && Matches(v, videoId, owner))
                && (r.Err? ==> r.error == VideoNotFound && videos == old(videos))
                && (r.Ok? ==>
                      && r.value == DeletedMessage
                      && (exists i :: 0 <= i < |old(videos)| && Matches(old(videos)[i], videoId, owner)
                                      && videos == RemoveAt(old(videos), i))
                      && FirstMatch(videos, videoId, owner) == None
                      && (forall s :: s in ListVideos(videos, owner) ==> s.id != videoId))
      ensures r.Ok? || videos == old(videos)
    {
      var current := Authenticate(users, codec, token);
      if current.Err? {
        return Err(current.error);
      }
      var found := FirstMatch(videos, videoId, current.value.id);
      if found.None? {
        return Err(VideoNotFound);
      }
      DeletedVideoIsGone(videos, videoId, current.value.id);
      RemoveAtKeepsIdsUnique(videos, found.value);
      videos := RemoveAt(videos, found.value);
      r := Ok(DeletedMessage);
    }
  }
}
