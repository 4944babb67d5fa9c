/** The exceptions the core raises or lets through. */
module Exceptions {

  /** The schema constraints of the four relations whose violation makes the
      database driver raise an integrity error. */
  datatype Constraint =
    | UniqueTelegramId          // users.telegram_id UNIQUE
    | UniqueFeedUrl             // feeds.url UNIQUE
    | UniqueSubscription        // subscriptions UNIQUE (user_id, feed_id)
    | SubscriptionUserKey       // subscriptions.user_id REFERENCES users
    | SubscriptionFeedKey       // subscriptions.feed_id REFERENCES feeds
    | LastItemFeedKey           // feeds_last_items.feed_id REFERENCES feeds

  datatype Exception =
    /** `DisplayableException(message)`: its text is meant for the user. */
    | Displayable(message: string)
    /** An integrity error raised by the database for a violated constraint. */
    | Integrity(violated: Constraint)
    /** The database's data error for a value outside its column's type
        ("integer out of range" for an `INTEGER` column). */
    | IntegerOutOfRange
    /** `ValueError(message)`. */
    | ValueError(message: string)
    /** Any other exception (transport, network, programming errors). */
    | Other(description: string)
}
