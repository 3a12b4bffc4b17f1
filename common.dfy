/** Shapes shared by the backend handlers and the web client. */
module Common {

  /** A nullable value (`*T` in the handlers, `T | null` in the client). */
  datatype Option<+T> = None | Some(value: T) {
    function GetOr(default: T): T {
      match this
      case Some(v) => v
      case None => default
    }
  }

  /** A UUID is an opaque 128-bit identifier; 0 stands for `uuid.Nil`. */
  type Uuid = nat
  const NilUuid: Uuid := 0

  /** Vote directions accepted by the votes endpoint. */
  datatype VoteType = Up | Down

  function VoteTypeName(v: VoteType): string {
    match v
    case Up => "up"
    case Down => "down"
  }

  /** The `sort_by` options of the feed. */
  datatype SortOption = Newest | Popular | Trending

  function SortName(s: SortOption): string {
    match s
    case Newest => "newest"
    case Popular => "popular"
    case Trending => "trending"
  }

  /** An article tag (`models.Tag`). */
  datatype Tag = Tag(id: Uuid, name: string, slug: string, color: string)

  /** An article as the API returns it (`models.Article`); times are day-resolution integers. */
  datatype Article = Article(
    id: Uuid,
    title: string,
    url: string,
    description: Option<string>,
    author: Option<string>,
    publishedAt: Option<int>,
    sourceName: string,
    imageUrl: Option<string>,
    readingTimeMinutes: int,
    upvotes: int,
    downvotes: int,
    tags: seq<Tag>,
    isBookmarked: bool,
    userVote: Option<string>)

  /** A user profile (`models.UserProfile`); `interests` is None for a SQL NULL array. */
  datatype UserProfile = UserProfile(
    id: Uuid,
    username: string,
    avatarUrl: Option<string>,
    bio: Option<string>,
    interests: Option<seq<string>>)

  /** An HTTP reply of a handler: status code and the `error` text of the JSON body. */
  datatype Reply = Reply(status: int, error: string)

  const StatusOK := 200
  const StatusCreated := 201
  const StatusBadRequest := 400
  const StatusUnauthorized := 401
  const StatusNotFound := 404
  const StatusInternalServerError := 500
}
