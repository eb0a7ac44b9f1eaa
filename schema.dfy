/** The rows of the four tables the core touches, after the interfaces of
    src/types.ts. Timestamps are integers (the store's `created_at`, in
    ascending time order). */
module Schema {

  datatype Option<+T> = None | Some(value: T)

  datatype RequestKind = Wake | Topic

  datatype RequestStatus = Active | Matched | Completed | Expired

  /** A row of `users`; `trustScore` is None when the column holds null. */
  datatype User = User(id: string, username: string, avatar: string, trustScore: Option<int>)

  /** A row of `requests`; `userId` is the owner. */
  datatype Request = Request(
    id: string,
    userId: string,
    kind: RequestKind,
    topic: string,
    scheduledTime: Option<string>,
    status: RequestStatus,
    createdAt: int)

  /** A row of `conversations`: `user1Id` owns the request, `user2Id` matched it. */
  datatype Conversation = Conversation(id: string, requestId: string, user1Id: string, user2Id: string)

  /** A row of `messages`. */
  datatype MessageRow = MessageRow(conversationId: string, senderId: string, content: string, createdAt: int)
}
