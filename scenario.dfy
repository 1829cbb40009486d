/**
 * The order in which backend_test.py exercises the API, run against a
 * backend that starts empty: register, log in, read `/me`, upload a video,
 * find it in the list, fetch it, delete it, and find it gone. Every step
 * passes the check the test applies to its response.
 */
module Scenario {
  import opened Wrappers
  import opened Models
  import opened Auth
  import opened VideoTable
  import opened Server

  /** The eight steps of the test run, in order; each reports whether its check passed. */
  method RunAllTests(codec: TokenCodec, passwords: PasswordScheme,
                     email: string, password: string, phone: Option<string>,
                     userId: string, videoId: string, video: VideoUpload, now: int)
    returns (passed: seq<bool>)
    requires codec.Invertible() && passwords.Sound()
    ensures |passed| == 8
    ensures forall i :: 0 <= i < |passed| ==> passed[i]
  {
    var backend := new Backend(codec, passwords);
    var authPassed, token := AuthenticationSteps(backend, email, password, phone, userId, now);
    var videoPassed := VideoSteps(backend, token, userId, videoId, video, now);
    passed := authPassed + videoPassed;
  }

  /** Register, log in and read `/me` on a backend with no users. */
  method AuthenticationSteps(backend: Backend, email: string, password: string,
                             phone: Option<string>, userId: string, now: int)
    returns (passed: seq<bool>, token: string)
    requires backend.Valid() && backend.users == map[]
    modifies backend
    ensures backend.Valid()
    ensures backend.videos == old(backend.videos)
    ensures Authenticate(backend.users, backend.codec, token).Ok?
    ensures Authenticate(backend.users, backend.codec, token).value.id == userId
    ensures |passed| == 3 && passed[0] && passed[1] && passed[2]
  {
    var registration := backend.Register(email, password, phone, userId, now);
    var registered := registration.Ok? && registration.value.tokenType == BearerType;
    var user := User(userId, email, phone, backend.passwords.hash(password), now);
    assert backend.users == map[email := user];

    var login := backend.Login(email, password, now);
    assert backend.passwords.verify(password, backend.passwords.hash(password));
    var loggedIn := login.Ok? && login.value.tokenType == BearerType;
    token := if login.Ok? then login.value.accessToken else "";
    assert Authenticate(backend.users, backend.codec, token) == Ok(user);

    var me := backend.Me(token);
    var infoMatches := me.Ok? && me.value.email == email && me.value.phone == phone;

    passed := [registered, loggedIn, infoMatches];
  }

  /** Upload and list, then fetch, delete and list again, as the user `token` names, on a backend with no videos. */
  method VideoSteps(backend: Backend, token: string, userId: string, videoId: string,
                    video: VideoUpload, now: int)
    returns (passed: seq<bool>)
    requires backend.Valid() && backend.videos == []
    requires Authenticate(backend.users, backend.codec, token).Ok?
    requires Authenticate(backend.users, backend.codec, token).value.id == userId
    modifies backend
    ensures |passed| == 5 && passed[0] && passed[1] && passed[2] && passed[3] && passed[4]
  {
    var uploadPassed := UploadSteps(backend, token, userId, videoId, video, now);
    var deletePassed := DeleteSteps(backend, token, userId, videoId, video.videoData);
    passed := uploadPassed + deletePassed;
  }

  /** Upload a video and find it in the list. */
  method UploadSteps(backend: Backend, token: string, userId: string, videoId: string,
                     video: VideoUpload, now: int)
    returns (passed: seq<bool>)
    requires backend.Valid() && backend.videos == []
    requires Authenticate(backend.users, backend.codec, token).Ok?
    requires Authenticate(backend.users, backend.codec, token).value.id == userId
    modifies backend
    ensures backend.Valid() && backend.users == old(backend.users)
    ensures |backend.videos| == 1 && Matches(backend.videos[0], videoId, userId)
    ensures backend.videos[0].videoData == video.videoData
    ensures |passed| == 2 && passed[0] && passed[1]
  {
    assert FreshId(backend.videos, videoId);
    var upload := backend.UploadVideo(token, video, videoId, now);
    var uploaded := upload.Ok? && upload.value.videoId == videoId;
    var record := VideoRecord(videoId, userId, video.videoData, video.locationLat,
                              video.locationLng, video.phoneNumber, now);
    assert upload == Ok(UploadResponse(UploadedMessage, videoId));
    assert backend.videos == [] + [record];
    UploadIsListed([], record);

    var listing := backend.GetUserVideos(token);
    var listed := listing.Ok? && exists s :: s in listing.value && s.id == videoId;

    passed := [uploaded, listed];
  }

  /** Fetch the uploaded video, delete it, and find it gone from the list. */
  method DeleteSteps(backend: Backend, token: string, userId: string, videoId: string, videoData: string)
    returns (passed: seq<bool>)
    requires backend.Valid()
    requires Authenticate(backend.users, backend.codec, token).Ok?
    requires Authenticate(backend.users, backend.codec, token).value.id == userId
    requires |backend.videos| == 1 && Matches(backend.videos[0], videoId, userId)
    requires backend.videos[0].videoData == videoData
    modifies backend
    ensures |passed| == 3 && passed[0] && passed[1] && passed[2]
  {
    var fetch := backend.GetVideo(token, videoId);
    var fetched := fetch.Ok? && fetch.value.id == videoId && fetch.value.videoData == videoData;

    var deletion := backend.DeleteVideo(token, videoId);
    var deleted := deletion.Ok? && deletion.value == DeletedMessage;

    var relisting := backend.GetUserVideos(token);
    var gone := relisting.Ok? && forall s :: s in relisting.value ==> s.id != videoId;

    passed := [fetched, deleted, gone];
  }
}
