/**
 * The records of the video-service backend (backend/server.py) and the HTTP
 * errors its handlers raise.
 *
 * Times are integer minutes on the server's clock, which callers pass in.
 * Identifiers are the strings `uuid4` would produce; callers pass fresh ones in.
 */
module Models {
  import opened Wrappers

  /** A GPS coordinate. The backend stores and returns it and never computes with it. */
  type Coord = real

  /** A stored account (`User`); the password is only ever kept as its hash. */
  datatype User = User(
    id: string,
    email: string,
    phone: Option<string>,
    hashedPassword: string,
    createdAt: int)

  /** A stored video (`VideoRecord`), owned by the user whose `id` is `userId`. */
  datatype VideoRecord = VideoRecord(
    id: string,
    userId: string,
    videoData: string,
    locationLat: Option<Coord>,
    locationLng: Option<Coord>,
    phoneNumber: Option<string>,
    timestamp: int)

  /** The body of an upload request (`VideoUpload`). */
  datatype VideoUpload = VideoUpload(
    videoData: string,
    locationLat: Option<Coord>,
    locationLng: Option<Coord>,
    phoneNumber: Option<string>)

  /** One entry of the list view: a video without its payload. */
  datatype VideoSummary = VideoSummary(
    id: string,
    timestamp: int,
    locationLat: Option<Coord>,
    locationLng: Option<Coord>,
    phoneNumber: Option<string>)

  /** The body returned by `/me`. */
  datatype UserInfo = UserInfo(id: string, email: string, phone: Option<string>, createdAt: int)

  /** The body returned by `/register` and `/login` (`Token`). */
  datatype TokenResponse = TokenResponse(accessToken: string, tokenType: string)

  /** The body returned by `/videos/upload`. */
  datatype UploadResponse = UploadResponse(message: string, videoId: string)

  /** An `HTTPException`: a status code and a detail message. */
  datatype HttpError = HttpError(status: int, detail: string)

  const EmailTaken := HttpError(400, "Email already registered")
  const BadLogin := HttpError(401, "Incorrect email or password")
  const BadCredentials := HttpError(401, "Could not validate credentials")
  const VideoNotFound := HttpError(404, "Video not found")

  const BearerType := "bearer"
  const UploadedMessage := "Video uploaded successfully"
  const DeletedMessage := "Video deleted successfully"
}
