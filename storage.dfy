/** localStorage and sessionStorage as a mutable map from key to stored value. */
module Storage {
  import opened Options
  import opened Records

  /**
   * What a storage key holds. JSON.stringify followed by JSON.parse is treated as the
   * identity, so a stored array is kept as the sequence of records it serialises.
   */
  datatype Value =
    | Flag(text: string)                     // raw strings such as 'true'
    | Timestamp(millis: int)                 // Date.now().toString(), read back with parseInt
    | Activities(activities: seq<Activity>)
    | BlogPosts(posts: seq<BlogPost>)
    | Messages(messages: seq<ContactMessage>)
    | CredentialPair(credentials: Credentials)
    | Identifiers(ids: seq<string>)
    | ErrorReports(errors: seq<ErrorRecord>)

  /** getItem: null for a missing key */
  function GetItem(items: map<string, Value>, key: string): (r: Option<Value>)
    ensures r.Some? <==> key in items
    ensures r.Some? ==> r.value == items[key]
  {
    if key in items then Some(items[key]) else None
  }

  /** One browser storage area */
  class StorageArea {
    var items: map<string, Value>

    constructor (initial: map<string, Value>)
      ensures items == initial
    {
      items := initial;
    }

    method SetItem(key: string, value: Value)
      modifies this
      ensures items == old(items)[key := value]
    {
      items := items[key := value];
    }

    method RemoveItem(key: string)
      modifies this
      ensures items == old(items) - {key}
    {
      items := items - {key};
    }
  }

  const ActivitiesKey: string := "activities"
  const BlogPostsKey: string := "blogPosts"
  const ContactMessagesKey: string := "contactMessages"

  /** `JSON.parse(localStorage.getItem('activities')) || []` */
  function StoredActivities(items: map<string, Value>): (r: seq<Activity>)
    ensures ActivitiesKey in items && items[ActivitiesKey].Activities? ==> r == items[ActivitiesKey].activities
    ensures ActivitiesKey !in items ==> r == []
  {
    if ActivitiesKey in items && items[ActivitiesKey].Activities? then items[ActivitiesKey].activities else []
  }

  /** `JSON.parse(localStorage.getItem('blogPosts')) || []` */
  function StoredBlogPosts(items: map<string, Value>): (r: seq<BlogPost>)
    ensures BlogPostsKey in items && items[BlogPostsKey].BlogPosts? ==> r == items[BlogPostsKey].posts
    ensures BlogPostsKey !in items ==> r == []
  {
    if BlogPostsKey in items && items[BlogPostsKey].BlogPosts? then items[BlogPostsKey].posts else []
  }

  /** `JSON.parse(localStorage.getItem('contactMessages')) || []` */
  function StoredMessages(items: map<string, Value>): (r: seq<ContactMessage>)
    ensures ContactMessagesKey in items && items[ContactMessagesKey].Messages? ==> r == items[ContactMessagesKey].messages
    ensures ContactMessagesKey !in items ==> r == []
  {
    if ContactMessagesKey in items && items[ContactMessagesKey].Messages? then items[ContactMessagesKey].messages else []
  }

  /** What autoSave writes, the next page load reads back; writing one list leaves the other two as they were */
  lemma StoredListsRoundTrip(items: map<string, Value>, activities: seq<Activity>, posts: seq<BlogPost>, messages: seq<ContactMessage>)
    ensures StoredActivities(items[ActivitiesKey := Activities(activities)]) == activities
    ensures StoredBlogPosts(items[BlogPostsKey := BlogPosts(posts)]) == posts
    ensures StoredMessages(items[ContactMessagesKey := Messages(messages)]) == messages
    ensures StoredBlogPosts(items[ActivitiesKey := Activities(activities)]) == StoredBlogPosts(items)
    ensures StoredMessages(items[ActivitiesKey := Activities(activities)]) == StoredMessages(items)
    ensures StoredActivities(items[BlogPostsKey := BlogPosts(posts)]) == StoredActivities(items)
    ensures StoredMessages(items[BlogPostsKey := BlogPosts(posts)]) == StoredMessages(items)
    ensures StoredActivities(items[ContactMessagesKey := Messages(messages)]) == StoredActivities(items)
    ensures StoredBlogPosts(items[ContactMessagesKey := Messages(messages)]) == StoredBlogPosts(items)
  {
  }
}
