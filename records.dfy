/** The records the site keeps in browser storage (JSON objects in the original, datatypes here). */
module Records {
  import opened Options

  /** A kindergarten event created from the admin panel */
  datatype Activity = Activity(
    id: int,
    title: string,
    date: string,
    time: Option<string>,
    location: string,
    description: string,
    image: Option<string>,
    capacity: Option<string>,
    createdAt: string,
    updatedAt: Option<string>)

  /** A blog post; tags are the parsed pieces of the comma-separated form field */
  datatype BlogPost = BlogPost(
    id: int,
    title: string,
    author: string,
    category: Option<string>,
    content: string,
    image: Option<string>,
    tags: seq<string>,
    createdAt: string,
    updatedAt: Option<string>)

  /** A submission of the public contact form */
  datatype ContactMessage = ContactMessage(
    id: int,
    name: string,
    email: string,
    message: string,
    createdAt: string,
    read: bool,
    ip: string,
    userAgent: string)

  /** The admin login pair */
  datatype Credentials = Credentials(username: string, password: string)

  /** One entry of the error reporter's buffer */
  datatype ErrorRecord = ErrorRecord(
    id: string,
    kind: string,
    message: string,
    timestamp: int,
    sessionId: string,
    userId: string,
    environment: string,
    sent: bool)

  /** `value || null` on an optional form field: the empty string becomes null */
  function OrNull(s: string): (r: Option<string>)
    ensures r == None <==> s == []
    ensures r.Some? ==> r.value == s
  {
    if s == [] then None else Some(s)
  }
}
