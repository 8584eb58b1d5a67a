/** The hosted backend as in-memory tables: one sequence of rows per table the
    components read or write, shaped like the generated row types (nullable
    columns are `Option`s), and the object store as a map from bucket and path
    to the uploaded file. Ids and timestamps the backend generates on insert
    are passed in by the caller as a `Stamp`. */
module Tables {
  import opened Common

  /** The signed-in user as the auth session exposes it. */
  datatype AuthUser = AuthUser(id: string, displayName: Option<string>, email: string)

  /** What the backend assigns to an inserted row: its id and `now()`. */
  datatype Stamp = Stamp(id: string, at: int)

  /** A row of `friends`: a request from `userId` to `friendId`. */
  datatype FriendRow = FriendRow(userId: Option<string>, friendId: Option<string>, status: Option<string>)

  /** The JSON `data` column of `notifications`, as far as it is ever filled. */
  datatype NotificationData = NoData | FromUser(fromUserId: string)

  datatype Notification = Notification(
    id: string,
    userId: Option<string>,
    kind: string,
    title: string,
    message: string,
    data: NotificationData,
    isRead: Option<bool>,
    createdAt: int)

  datatype Profile = Profile(
    id: string,
    username: Option<string>,
    displayName: Option<string>,
    avatarUrl: Option<string>)

  datatype Chat = Chat(
    id: string,
    name: Option<string>,
    isGroup: Option<bool>,
    createdBy: Option<string>,
    updatedAt: int)

  datatype ChatParticipant = ChatParticipant(chatId: Option<string>, userId: Option<string>)

  datatype Message = Message(
    chatId: Option<string>,
    senderId: Option<string>,
    content: string,
    createdAt: int)

  datatype Post = Post(
    id: string,
    userId: Option<string>,
    content: string,
    isPrivate: Option<bool>,
    createdAt: int)

  datatype PostLike = PostLike(postId: Option<string>, userId: Option<string>)

  datatype UserMedia = UserMedia(
    userId: Option<string>,
    url: string,
    mediaType: string,
    caption: Option<string>,
    isPrivate: Option<bool>)

  /** A file picked in the browser, known here by its name. */
  datatype FileInfo = FileInfo(name: string)

  datatype StorageKey = StorageKey(bucket: string, path: string)

  /** The backend's state. Every component holds the same instance. */
  class Database {
    var friends: seq<FriendRow>
    var notifications: seq<Notification>
    var profiles: seq<Profile>
    var chats: seq<Chat>
    var chatParticipants: seq<ChatParticipant>
    var messages: seq<Message>
    var posts: seq<Post>
    var postLikes: seq<PostLike>
    var userMedia: seq<UserMedia>
    var objects: map<StorageKey, FileInfo>

    constructor ()
      ensures friends == [] && notifications == [] && profiles == []
      ensures chats == [] && chatParticipants == [] && messages == []
      ensures posts == [] && postLikes == [] && userMedia == [] && objects == map[]
    {
      friends, notifications, profiles := [], [], [];
      chats, chatParticipants, messages := [], [], [];
      posts, postLikes, userMedia, objects := [], [], [], map[];
    }
  }
}
