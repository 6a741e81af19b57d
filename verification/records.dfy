/**
 * The values the chat client's data layer exchanges with the DynamoDB object
 * mapper, seen from the code that runs after each remote call returns.
 *
 * The mapper's asynchronous task (`AWSTask`) is replaced by the value it
 * settles with: an error, or a result that may be nil. The scanned page
 * (`AWSDynamoDBPaginatedOutput.items`) is a sequence of untyped objects that
 * the controller down-casts with `as? Friend` / `as? User`; `Item` says which
 * of the mapped classes each object is.
 */
module Records {
  import opened Wrappers

  /**
   * An `NSError`: its domain, its code and its `userInfo` dictionary (only
   * string entries are kept). Errors reported by the mapper are opaque values
   * of this type that the controller passes on unchanged.
   */
  datatype Error = NSError(domain: string, code: int, userInfo: map<string, string>)

  /** The error the controller makes up when a task settles with neither an error nor a usable result. */
  const UnknownError: Error :=
    NSError("com.asmtechnology.awschat", 200, map["__type" := "Unknown Error", "message" := "DynamoDB error."])

  /** A row of the User table: its `id` (may be nil) and its other attributes, which this code never reads. */
  datatype User = User(id: Option<string>, attributes: map<string, string>)

  /** A row of the Friend table: the owner's `user_id` and the related user's `friend_id`, either may be nil. */
  datatype Friend = Friend(userId: Option<string>, friendId: Option<string>)

  /** One object of a scanned page or a loaded result, by its dynamic class. */
  datatype Item = FriendItem(friend: Friend) | UserItem(user: User) | OtherItem(className: string)

  /**
   * How a scan task settles: with an error, or with a result that is nil or a
   * page of items. The filter of a filtered scan is applied by the service,
   * so the items are the matching rows already.
   */
  datatype ScanTask = ScanFailed(error: Error) | ScanDone(output: Option<seq<Item>>)

  /** How a load-by-key task settles: with an error, or with a result object that may be nil. */
  datatype LoadTask = LoadFailed(error: Error) | LoadDone(result: Option<Item>)

  /**
   * How a continuation body ends: it runs to its end, or it hits a Swift
   * runtime trap (a range `0...(n - 1)` with `n == 0`, a forced unwrap of
   * nil), which stops the process.
   */
  datatype Exec<T> = Completed(value: T) | Trapped
}
