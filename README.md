# Video-recording backend and `.env` loader, modelled in Dafny

The backend of the video-recording app (`backend/server.py`) keeps two
collections: users, keyed by email, and video records, each owned by one user
through `user_id`. Its handlers do the following:

- register an account, refusing an email that is already stored;
- log in with a password;
- resolve a bearer token into the stored user (`get_current_user`) and report
  that user (`/me`);
- upload a video, list the caller's videos, fetch one, and delete one. Every
  video operation acts only on the caller's own records.

`backend_test.py` also reads the frontend's `.env` file with a small line
parser, `load_env_file`, and derives the API base URL from the result.

The model is split into modules:

- `Wrappers` holds `Option` and `Result`.
- `Models` holds the records (`User`, `VideoRecord`, `VideoUpload`, the
  payload-free `VideoSummary`, the response bodies) and the HTTP errors with
  their status codes and detail strings.
- `Auth` covers the token claims and `create_access_token`'s expiry rule.
  Tokens and passwords are abstract here:
  - a token scheme `TokenCodec(encode, decode)` with the law
    `decode(encode(c)) == Some(c)`;
  - a password scheme `PasswordScheme(hash, verify)` with the law
    `verify(p, hash(p))`.

  It also holds the bearer-token check `Authenticate` and the login
  credential check `CheckPassword`.
- `VideoTable` holds the queries on the video collection, which is a
  sequence in insertion order:
  - the owner filter `OwnedBy`;
  - the 1000-entry, payload-free list view `ListVideos`;
  - the first record matching an id and an owner, `FirstMatch`, which is
    what `find_one` and `delete_one` use;
  - removal of one record.
- `Server` holds the class `Backend`:
  - the user table is a field `users: map<string, User>` keyed by email, and
    the video table a field `videos: seq<VideoRecord>`;
  - there is one method per handler;
  - the token scheme and the password scheme are constants given to the
    constructor;
  - `Valid()` carries the two laws, the fact that each user is stored under
    its own email, and the fact that user ids and video ids are distinct.
- `Scenario` runs the order in which `backend_test.py` calls the API, against
  a backend that starts empty. Every step passes the check the test applies.
- `EnvFile` holds the following:
  - Python's `str.strip` (with the `str.isspace` character set) and
    `strip('"\'')`;
  - the line parser `ParseLine` and the fold `ParseLines` that applies it
    to each line of a file in order (`Collect`, the fold for any line parser);
  - the loop method `LoadEnvFile`, whose invariant is that the dictionary
    built so far is `ParseLines` of the lines read so far;
  - `ApiBaseUrl`.

The helpers `Strip`, `StripLeft`, `StripRight`, `ParseLine`, `Collect`,
`ParseLines`, `ApiBaseUrl`, `Subject`, `LoginClaims`, `Summarize` and `UserInfoOf` are
defined by their bodies. The lemmas in the table below state their properties.

Inputs that the code gets from its environment are parameters here:

- the clock is an integer number of minutes (`now`);
- the ids `uuid4` would produce are passed in, with a precondition that they
  are not in use yet;
- an `.env` file is its sequence of lines, or `None` when the file does not
  exist.

Register and login answer with the token and `token_type: "bearer"`
(`backend/server.py:139`, `:157`). Upload answers with a message and the new
`video_id` (`backend/server.py:180`).

## Model

| member | source | states |
|---|---|---|
| `Auth.AccessClaims` | backend/server.py:83-89 | The signed claims are a copy of the caller's claims plus `exp`. Every other claim keeps its value. `exp` is now + delta, or now + 15 minutes when the delta is absent or zero (a zero `timedelta` is false in Python). |
| `Auth.LoginClaimsContents` | backend/server.py:134-138 | Register and login sign exactly `sub` = the email and `exp` = now + 30 minutes. |
| `Auth.Authenticate` | backend/server.py:93-111 | It refuses with a 401 "Could not validate credentials" exactly when the token does not decode, has no string `sub`, or its `sub` names no stored user. Otherwise it returns the user stored under that email. |
| `Auth.IssuedTokenAuthenticates` | backend/server.py:99-111 | A token carrying the login claims of a stored email authenticates as that email's user. |
| `Auth.TokenForUnknownEmailRefused` | backend/server.py:108-110 | A well-formed token whose `sub` names no stored user gets the same 401. |
| `Auth.CheckPassword` | backend/server.py:144-150 | It succeeds exactly when the email is stored and the password verifies against that user's hash. An unknown email and a wrong password both give the same 401 "Incorrect email or password". |
| `Auth.StoredHashAcceptsPassword` | backend/server.py:77-81 | Under the password-scheme law, a user stored with `hash(p)` passes the login check with `p`. |
| `VideoTable.OwnedBy` | backend/server.py:184 | The filter keeps exactly the records whose `user_id` is the caller's, and never more records than the table holds. Its contract does not state order; that it keeps stored order follows from its definition, one record at a time, and `OwnedByAppend` states it. |
| `VideoTable.OwnedByAppend` | backend/server.py:179-184 | Inserting a record extends its owner's filtered records by that record, at the end, and leaves every other user's records unchanged. |
| `VideoTable.ListVideos` | backend/server.py:182-192 | The list has at most 1000 entries and is cut at exactly 1000 when the caller has more; otherwise it has one entry per owned record. Each entry is the summary (no `video_data`) of the record at the same position among the caller's records, in stored order. |
| `VideoTable.ListVideosOnlyOwn` | backend/server.py:184-192 | Every entry of the list is the summary of a stored record whose `user_id` is the caller's. |
| `VideoTable.ListVideosComplete` | backend/server.py:184 | When the caller has at most 1000 records, the summary of every one of them appears in the list. |
| `VideoTable.UploadIsListed` | backend_test.py:216-222 | After an upload, its id appears in the owner's list, unless the owner already had 1000 or more videos. |
| `VideoTable.UploadInvisibleToOthers` | backend/server.py:184 | An upload by one user leaves every other user's list unchanged. |
| `VideoTable.FirstMatch` | backend/server.py:196-198 | It finds nothing exactly when no record matches both the id and the owner. Otherwise it gives the position of the first record that matches. |
| `VideoTable.OthersVideoNotFound` | backend/server.py:196-198 | With distinct ids, another user's existing video is not found for the caller, just like a missing id. |
| `VideoTable.RemoveAt` | backend/server.py:206 | Removal takes out exactly that one record (as a multiset) and keeps every other record, in order. |
| `VideoTable.RemoveAtKeepsIdsUnique` | backend/server.py:204-209 | After removal the ids stay distinct, and the removed id no longer occurs. |
| `VideoTable.DeletedVideoIsGone` | backend_test.py:350-358 | After a delete, the caller can neither fetch the deleted id nor see it in the list. |
| `VideoTable.AppendFreshKeepsIdsUnique` | backend/server.py:171-179 | Inserting a record with a fresh id keeps all ids distinct. |
| `Server.Backend.constructor` | backend/server.py:29-31 | The backend starts over empty collections, with the two schemes it is given. |
| `Server.Backend.CreateAccessToken` | backend/server.py:83-91 | The token decodes to `AccessClaims(data, delta, now)`. `data` is a value, so the caller's dictionary is left unchanged. |
| `Server.Backend.Register` | backend/server.py:114-139 | A stored email gives a 400 "Email already registered" and no change. Otherwise exactly one user is added, under the email, with the given phone, the fresh id, the hash of the password and the current time. The other users and all videos are kept. The response has `token_type` "bearer" and a token with the login claims of the email. That token authenticates as the new user, and the password passes the login check. |
| `Server.Backend.Login` | backend/server.py:141-157 | It fails exactly when the email is unknown or the password does not verify, and both failures give the same 401. Otherwise it returns a "bearer" token with the login claims of the email, which authenticates as the stored user. It changes no state, because it has no `modifies` clause. |
| `Server.Backend.Me` | backend/server.py:159-166 | It answers 401 exactly when authentication fails. Otherwise it returns the id, email, phone and creation time of the user the token names, and the returned email is the token's `sub`. |
| `Server.Backend.UploadVideo` | backend/server.py:169-180 | On a failed authentication it answers 401 and changes nothing. Otherwise exactly one record is appended. The record has the fresh id, the caller's id as `user_id`, the four upload fields copied verbatim and the current time. The response holds that id, and the id then appears in the caller's list, unless the caller already had 1000 videos. Users are unchanged. |
| `Server.Backend.GetUserVideos` | backend/server.py:182-192 | It answers 401 exactly when authentication fails. Otherwise it returns the caller's list view (see `ListVideos`). |
| `Server.Backend.GetVideo` | backend/server.py:194-202 | It answers 401 when authentication fails. It succeeds exactly when a stored record matches both the id and the caller. The result is such a record, payload included. Otherwise it answers 404 "Video not found", which covers both a missing id and another user's video. |
| `Server.Backend.DeleteVideo` | backend/server.py:204-209 | It answers 401 and changes nothing when authentication fails. It succeeds exactly when a record matches both the id and the caller. It then removes exactly that one record, keeps all the others in order, and leaves the id absent from the caller's list and from `get`. Otherwise it answers 404 and changes nothing. |
| `Scenario.RunAllTests` | backend_test.py:373-390 | Against an empty backend, all eight steps of the test run pass, in the test's order: register, login, `/me`, upload, list, get, delete, verify deletion. |
| `Scenario.AuthenticationSteps` | backend_test.py:48-149 | On a backend with no users, register, login and `/me` all pass their checks. The resulting token authenticates as the new user. |
| `Scenario.VideoSteps` | backend_test.py:151-371 | With that token and no videos, the five video steps all pass their checks. |
| `Scenario.UploadSteps` | backend_test.py:151-242 | The upload returns its `video_id`, and the list then contains that id. |
| `Scenario.DeleteSteps` | backend_test.py:244-371 | Fetching gives the same id with its payload, the delete succeeds, and the following list no longer has the id. |
| `EnvFile.StripLeftSpec` | backend_test.py:20 | Left stripping removes the longest prefix of characters from the set. What remains is a suffix that does not start with such a character. |
| `EnvFile.StripRightSpec` | backend_test.py:20 | Right stripping removes the longest suffix of characters from the set. What remains is a prefix that does not end with such a character. |
| `EnvFile.StripIsTrim` | backend_test.py:24 | `strip` gives a slice of the string with only set characters outside it, and the slice neither starts nor ends with one. |
| `EnvFile.TrimIsStrip` | backend_test.py:24 | Any such slice is what `strip` gives, so `strip` removes every leading and trailing set character and keeps everything between them. |
| `EnvFile.IndexOf` | backend_test.py:21-22 | It finds nothing exactly when `=` does not occur. Otherwise it gives the first position of `=`, which is where `split('=', 1)` cuts. |
| `EnvFile.ParseLineCases` | backend_test.py:20-24 | After whitespace trimming, a line is skipped exactly when it is empty, starts with `#`, or has no `=`. An accepted line's key is the trimmed line up to its first `=`, contains no `=`, and is not trimmed further. Its value is the rest of the line with the leading and trailing quote characters stripped. |
| `EnvFile.CollectKeys` | backend_test.py:25 | The keys of the dictionary are exactly the keys of the accepted lines. This holds for the fold over any line parser, and so for `ParseLines`. |
| `EnvFile.CollectLastWins` | backend_test.py:25 | When several accepted lines share a key, the last one gives its value. |
| `EnvFile.LoadEnvFile` | backend_test.py:15-28 | A missing file gives an empty dictionary. Otherwise the loop's result is `ParseLines` of the file's lines. |
| `EnvFile.ApiBaseDefault` | backend_test.py:31-33 | With no file, or no accepted `EXPO_PUBLIC_BACKEND_URL` line, the API base is `http://localhost:8001/api`. |
| `EnvFile.ApiBaseConfigured` | backend_test.py:31-33 | Otherwise the API base is the value of the last accepted `EXPO_PUBLIC_BACKEND_URL` line, followed by `/api`. |

## Left out

- MongoDB and motor: the collections are in-memory values. Natural order is
  taken to be insertion order, so `to_list(1000)` keeps the first 1000 owned
  records in the order they were inserted. The `_id` field and its removal in
  `get_video` belong to Mongo serialisation and are not modelled.
- bcrypt: `PasswordScheme` is an abstract pair of functions with the law
  `verify(p, hash(p))`. Salting makes real hashes differ between calls; the
  model's `hash` is one fixed function.
- JWT: `TokenCodec` is an abstract pair of functions with the law
  `decode(encode(c)) == Some(c)`. `SECRET_KEY`, the algorithm and the
  encoding are not modelled. `decode` does not depend on the clock, so the
  expiry check that `jwt.decode` performs is not modelled: only the `exp`
  claim set at issue is.
- `datetime.utcnow` and `uuid4`: the time and the fresh ids are parameters.
  The model requires ids that are not in use yet.
- Pydantic validation (`EmailStr`, the required fields, response models):
  emails are opaque strings; values come already typed.
- Coordinates are floats in the code. The model treats them as opaque `real`
  values, and no arithmetic is done on them.
- `HTTPBearer`: a missing or malformed `Authorization` header is answered
  with 403 by the framework before any handler runs. The model starts from
  the token string. The `WWW-Authenticate` response header is not modelled.
- FastAPI routing, the `/api/` root message route, CORS, logging and the
  shutdown hook are framework plumbing, so they are left out.
- Concurrency: the handlers run one at a time, so the check-then-insert race
  in `register` is not modelled.
- `backend_test.py`: its HTTP client calls, printing and result summary are
  left out. `Scenario.RunAllTests` models the order of its steps, and each
  step passes a check at least as strict as the test's. Three checks are
  stricter:
  - `/me` also compares the phone, where the test compares only the email;
  - the list step asks that the uploaded id is present, where the test only
    prints a warning when it is missing and passes on any list;
  - the get step also compares the payload, where the test checks only the id.

  The test also counts a 400 "already registered" answer to register as a
  pass; on an empty backend that case does not arise.
- `load_env_file`: opening the file and printing the not-found message are
  not modelled. The file is given as its lines.
