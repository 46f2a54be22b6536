/**
 * The admin panel: the credential and session state machine, and the three content
 * repositories (activities, blog posts, contact messages) mirrored to local storage.
 */
module Admin {
  import opened Options
  import opened Text
  import opened Collections
  import opened Records
  import opened Storage
  import Security

  // ---------------------------------------------------------------- credentials and screens

  /** The hard-coded pair used while no credentials are stored */
  const DefaultCredentials: Credentials := Credentials("admin", "admin123")

  const CredentialsKey: string := "adminCredentials"
  const PasswordSetupKey: string := "adminPasswordSetup"
  const LoggedInKey: string := "adminLoggedIn"
  const SetupCompleteKey: string := "adminSetupComplete"
  const SessionKey: string := "adminSession"

  /** getStoredCredentials: the stored pair, or null */
  function StoredCredentials(items: map<string, Value>): (r: Option<Credentials>)
    ensures r.Some? <==> CredentialsKey in items && items[CredentialsKey].CredentialPair?
    ensures r.Some? ==> r.value == items[CredentialsKey].credentials
  {
    if CredentialsKey in items && items[CredentialsKey].CredentialPair? then Some(items[CredentialsKey].credentials) else None
  }

  /** `getStoredCredentials() || ADMIN_CREDENTIALS` */
  function EffectiveCredentials(items: map<string, Value>): (c: Credentials)
    ensures StoredCredentials(items).Some? ==> c == StoredCredentials(items).value
    ensures StoredCredentials(items).None? ==> c == DefaultCredentials
  {
    match StoredCredentials(items)
    case Some(stored) => stored
    case None => DefaultCredentials
  }

  /** The comparison handleLogin makes */
  predicate LoginAccepted(items: map<string, Value>, username: string, password: string): (r: bool)
    ensures r <==> Credentials(username, password) == EffectiveCredentials(items)
  {
    username == EffectiveCredentials(items).username && password == EffectiveCredentials(items).password
  }

  /** Login succeeds exactly for the stored pair, or for admin/admin123 while none is stored */
  lemma LoginAcceptedIff(items: map<string, Value>, username: string, password: string)
    ensures LoginAccepted(items, username, password) <==>
      match StoredCredentials(items)
      case Some(c) => username == c.username && password == c.password
      case None => username == "admin" && password == "admin123"
  {
  }

  datatype Screen = LoginScreen | PasswordSetupScreen | Dashboard

  predicate FlagIsTrue(items: map<string, Value>, key: string) {
    key in items && items[key] == Flag("true")
  }

  /** checkAuth: the session flag wins, then the setup flag; otherwise the setup screen */
  function SelectScreen(sessionItems: map<string, Value>, localItems: map<string, Value>): (s: Screen)
    ensures s == Dashboard <==> FlagIsTrue(sessionItems, LoggedInKey)
    ensures s == LoginScreen <==> !FlagIsTrue(sessionItems, LoggedInKey) && FlagIsTrue(localItems, PasswordSetupKey)
    ensures s == PasswordSetupScreen <==> !FlagIsTrue(sessionItems, LoggedInKey) && !FlagIsTrue(localItems, PasswordSetupKey)
  {
    if FlagIsTrue(sessionItems, LoggedInKey) then Dashboard
    else if FlagIsTrue(localItems, PasswordSetupKey) then LoginScreen
    else PasswordSetupScreen
  }

  datatype SetupOutcome = UsernameTooShort | PasswordTooShort | PasswordsDiffer | SetupSaved

  /** The checks of handlePasswordSetup, in the order they are made */
  function SetupDecision(username: string, password: string, confirmPassword: string): (r: SetupOutcome)
    ensures r == SetupSaved <==> |username| >= 3 && |password| >= 6 && password == confirmPassword
    ensures r == UsernameTooShort <==> |username| < 3
    ensures r == PasswordTooShort <==> |username| >= 3 && |password| < 6
  {
    if |username| < 3 then UsernameTooShort
    else if |password| < 6 then PasswordTooShort
    else if password != confirmPassword then PasswordsDiffer
    else SetupSaved
  }

  /** The three live indicators of validateRequirements */
  datatype Requirements = Requirements(username: bool, length: bool, confirmation: bool)

  function SetupRequirements(username: string, password: string, confirmPassword: string): (r: Requirements)
    ensures r.username <==> SetupDecision(username, password, confirmPassword) != UsernameTooShort
    ensures r.length <==> |password| >= 6
    ensures r.confirmation <==> password == confirmPassword && password != []
    ensures r.confirmation ==> |confirmPassword| > 0
  {
    Requirements(|username| >= 3, |password| >= 6, password == confirmPassword && |password| > 0)
  }

  /** The indicators are all lit exactly when the setup form would be accepted */
  lemma RequirementsMatchSetup(username: string, password: string, confirmPassword: string)
    ensures var r := SetupRequirements(username, password, confirmPassword);
      r.username && r.length && r.confirmation <==> SetupDecision(username, password, confirmPassword) == SetupSaved
  {
  }

  datatype ChangeOutcome = WrongCurrentPassword | NewPasswordTooShort | NewPasswordsDiffer | PasswordChanged

  /** The checks of handleChangePassword, in the order they are made */
  function ChangeDecision(credentials: Credentials, currentPassword: string, newPassword: string, confirmNewPassword: string): (r: ChangeOutcome)
    ensures r == PasswordChanged <==>
      currentPassword == credentials.password && |newPassword| >= 6 && newPassword == confirmNewPassword
    ensures r == WrongCurrentPassword <==> currentPassword != credentials.password
    ensures r == NewPasswordTooShort <==> currentPassword == credentials.password && |newPassword| < 6
    ensures r == NewPasswordsDiffer <==>
      currentPassword == credentials.password && |newPassword| >= 6 && newPassword != confirmNewPassword
  {
    if currentPassword != credentials.password then WrongCurrentPassword
    else if |newPassword| < 6 then NewPasswordTooShort
    else if newPassword != confirmNewPassword then NewPasswordsDiffer
    else PasswordChanged
  }

  /** After a successful setup, the new pair logs in, and checkAuth would now choose the login screen */
  lemma SetupThenLogin(sessionItems: map<string, Value>, items: map<string, Value>, username: string, password: string)
    requires !FlagIsTrue(sessionItems, LoggedInKey)
    ensures var after := items[CredentialsKey := CredentialPair(Credentials(username, password))][PasswordSetupKey := Flag("true")];
      LoginAccepted(after, username, password) && SelectScreen(sessionItems, after) == LoginScreen &&
      (LoginAccepted(after, "admin", "admin123") <==> username == "admin" && password == "admin123")
  {
  }

  /** After a password change the username still logs in with the new password, and no longer with the old one */
  lemma ChangeThenLogin(items: map<string, Value>, newPassword: string)
    ensures var c := EffectiveCredentials(items);
      var after := items[CredentialsKey := CredentialPair(Credentials(c.username, newPassword))];
      LoginAccepted(after, c.username, newPassword) &&
      (newPassword != c.password ==> !LoginAccepted(after, c.username, c.password))
  {
  }

  /** updatePasswordStrength: one point each for length >= 6 and the four character classes */
  function StrengthScore(password: string): (n: nat)
    ensures n <= 5
    ensures n == 5 <==>
      |password| >= 6 && AnyChar(password, IsLower) && AnyChar(password, IsUpper) &&
      AnyChar(password, IsDigit) && AnyChar(password, Security.IsSpecial)
  {
    (if |password| >= 6 then 1 else 0) + (if AnyChar(password, IsLower) then 1 else 0) +
    (if AnyChar(password, IsUpper) then 1 else 0) + (if AnyChar(password, IsDigit) then 1 else 0) +
    (if AnyChar(password, Security.IsSpecial) then 1 else 0)
  }

  /** The label: at most 2 is weak, 3 is medium, above is strong */
  function StrengthLabel(score: nat): (r: string)
    ensures r == "Zayıf" <==> score <= 2
    ensures r == "Orta" <==> score == 3
    ensures r == "Güçlü" <==> score >= 4
  {
    if score <= 2 then "Zayıf" else if score <= 3 then "Orta" else "Güçlü"
  }

  /** Every password the security validator accepts at its default length scores full marks on the meter */
  lemma AcceptedPasswordsShowStrong(password: string)
    requires Security.ValidatePassword(password, 0).isValid
    ensures StrengthScore(password) == 5 && StrengthLabel(StrengthScore(password)) == "Güçlü"
  {
  }

  // ---------------------------------------------------------------- activities

  /** The fields of the activity forms, as typed */
  datatype ActivityForm = ActivityForm(
    title: string, date: string, time: string, location: string,
    description: string, image: string, capacity: string)

  function ActivityId(a: Activity): int { a.id }

  /** The record handleAddActivity creates; empty optional fields become null */
  function NewActivity(form: ActivityForm, id: int, createdAt: string): (a: Activity)
    ensures a.id == id && a.createdAt == createdAt && a.updatedAt == None
    ensures a.title == form.title && a.date == form.date && a.location == form.location && a.description == form.description
    ensures a.time == OrNull(form.time) && a.image == OrNull(form.image) && a.capacity == OrNull(form.capacity)
  {
    Activity(id, form.title, form.date, OrNull(form.time), form.location, form.description,
             OrNull(form.image), OrNull(form.capacity), createdAt, None)
  }

  /** `{ ...activity, <form fields>, updatedAt }`: identity and creation time survive an edit */
  function EditedActivity(a: Activity, form: ActivityForm, updatedAt: string): (r: Activity)
    ensures r.id == a.id && r.createdAt == a.createdAt && r.updatedAt == Some(updatedAt)
    ensures r == NewActivity(form, a.id, a.createdAt).(updatedAt := Some(updatedAt))
  {
    a.(title := form.title, date := form.date, time := OrNull(form.time), location := form.location,
       description := form.description, image := OrNull(form.image), capacity := OrNull(form.capacity),
       updatedAt := Some(updatedAt))
  }

  /** `value || ''` when an optional field is put back into a form */
  function OrEmpty(s: Option<string>): (r: string)
    ensures s.Some? ==> r == s.value
    ensures s.None? ==> r == []
  {
    if s.Some? then s.value else []
  }

  /** editActivity: the edit form filled from a record */
  function ActivityFormOf(a: Activity): (f: ActivityForm)
    ensures f.title == a.title && f.date == a.date && f.location == a.location && f.description == a.description
    ensures ActivityStored(a) ==> OrNull(f.time) == a.time && OrNull(f.image) == a.image && OrNull(f.capacity) == a.capacity
  {
    ActivityForm(a.title, a.date, OrEmpty(a.time), a.location, a.description, OrEmpty(a.image), OrEmpty(a.capacity))
  }

  /** Optional fields are never stored as the empty string */
  predicate ActivityStored(a: Activity) {
    a.time != Some([]) && a.image != Some([]) && a.capacity != Some([])
  }

  /** Records the panel creates have that shape */
  lemma NewActivityStored(form: ActivityForm, id: int, createdAt: string)
    ensures ActivityStored(NewActivity(form, id, createdAt))
  {
  }

  /** Opening a stored activity in the edit form and saving it unchanged changes only updatedAt */
  lemma ActivityEditRoundTrip(a: Activity, updatedAt: string)
    requires ActivityStored(a)
    ensures EditedActivity(a, ActivityFormOf(a), updatedAt) == a.(updatedAt := Some(updatedAt))
  {
  }

  /** handleEditActivity: the first record with the id is replaced; a missing id changes nothing */
  function EditActivityById(activities: seq<Activity>, id: int, form: ActivityForm, updatedAt: string): (r: seq<Activity>)
    ensures |r| == |activities|
    ensures var i := FindIndex(activities, ActivityId, id);
      (i < 0 ==> r == activities) &&
      (i >= 0 ==> r[i] == EditedActivity(activities[i], form, updatedAt) &&
                  forall k :: 0 <= k < |activities| && k != i ==> r[k] == activities[k])
  {
    var i := FindIndex(activities, ActivityId, id);
    if i < 0 then activities else activities[i := EditedActivity(activities[i], form, updatedAt)]
  }

  // ---------------------------------------------------------------- blog posts

  datatype BlogForm = BlogForm(
    title: string, author: string, category: string, content: string, image: string, tags: string)

  function PostId(p: BlogPost): int { p.id }

  function TrimAll(parts: seq<string>): (r: seq<string>)
    ensures |r| == |parts| && forall k :: 0 <= k < |parts| ==> r[k] == Trim(parts[k])
  {
    seq(|parts|, k requires 0 <= k < |parts| => Trim(parts[k]))
  }

  predicate NonEmpty(s: string) { |s| > 0 }

  /** A tag as stored: non-empty, without blank ends, without a comma */
  predicate IsTag(t: string) {
    t != [] && NoBlankEnds(t) && ',' !in t
  }

  lemma TrimmedPieces(tags: string)
    ensures forall t :: t in TrimAll(Split(tags, ',')) ==> NoBlankEnds(t) && ',' !in t
  {
    var parts := Split(tags, ',');
    SplitPiecesOmitSeparator(tags, ',');
    forall t | t in TrimAll(parts) ensures NoBlankEnds(t) && ',' !in t {
      var k :| 0 <= k < |parts| && TrimAll(parts)[k] == t;
      TrimEnds(parts[k]);
      TrimChars(parts[k]);
    }
  }

  /** `tags ? tags.split(',').map(t => t.trim()).filter(t => t.length > 0) : []` */
  function ParseTags(tags: string): (r: seq<string>)
    ensures tags == [] ==> r == []
    ensures forall t :: t in r ==> IsTag(t)
  {
    if tags == [] then []
    else
      TrimmedPieces(tags);
      Filter(TrimAll(Split(tags, ',')), NonEmpty)
  }

  /** The pieces of the joined tags: the first as it is, every other one behind a space */
  lemma SplitJoinedTags(tags: seq<string>)
    requires |tags| >= 1 && forall k :: 0 <= k < |tags| ==> ',' !in tags[k]
    ensures Split(Join(tags, ", "), ',') == [tags[0]] + PadAll(tags[1..], " ")
  {
    var sep: string := [','] + " ";
    assert sep == ", ";
    SplitJoinPadded("", tags, ',', " ");
    assert Split("" + Join(tags, sep), ',') == ["" + tags[0]] + PadAll(tags[1..], " ");
    assert "" + Join(tags, sep) == Join(tags, sep);
    assert "" + tags[0] == tags[0];
  }

  lemma JoinedTagsNonEmpty(tags: seq<string>)
    requires |tags| >= 1 && tags[0] != []
    ensures Join(tags, ", ") != []
  {
    if |tags| > 1 {
      assert Join(tags, ", ") == tags[0] + ", " + Join(tags[1..], ", ");
    }
  }

  lemma TrimPaddedTag(t: string)
    requires NoBlankEnds(t)
    ensures Trim(" " + t) == t
  {
    assert AllChars(" ", IsWhitespace);
    TrimBlankPrefix(" ", t);
    TrimOfTrimmed(t);
  }

  /** Trimming the pieces undoes the padding */
  lemma TrimPaddedTags(parts: seq<string>, tags: seq<string>)
    requires |parts| == |tags| >= 1 && parts[0] == tags[0] && NoBlankEnds(tags[0])
    requires forall k :: 1 <= k < |tags| ==> parts[k] == " " + tags[k] && NoBlankEnds(tags[k])
    ensures TrimAll(parts) == tags
  {
    var trimmed := TrimAll(parts);
    forall k | 0 <= k < |tags| ensures trimmed[k] == tags[k] {
      if k > 0 {
        TrimPaddedTag(tags[k]);
      } else {
        TrimOfTrimmed(tags[0]);
      }
    }
  }

  /** Joining stored tags with ', ' for the edit form and parsing the form again gives the same tags */
  lemma TagsRoundTrip(tags: seq<string>)
    requires forall k :: 0 <= k < |tags| ==> IsTag(tags[k])
    ensures ParseTags(Join(tags, ", ")) == tags
  {
    if tags != [] {
      SplitJoinedTags(tags);
      JoinedTagsNonEmpty(tags);
      var parts := [tags[0]] + PadAll(tags[1..], " ");
      forall k | 1 <= k < |tags| ensures parts[k] == " " + tags[k] && NoBlankEnds(tags[k]) {
        assert parts[k] == " " + tags[1..][k - 1];
        assert IsTag(tags[k]);
      }
      TrimPaddedTags(parts, tags);
      FilterAll(tags, NonEmpty);
    }
  }

  datatype BlogOutcome = MissingTitle | MissingAuthor | MissingContent | BlogNotFound | BlogSaved

  /** The required-field checks shared by handleAddBlog and handleEditBlog, in order */
  function BlogFormCheck(form: BlogForm): (r: Option<BlogOutcome>)
    ensures r.None? <==> Trim(form.title) != [] && Trim(form.author) != [] && Trim(form.content) != []
    ensures r == Some(MissingTitle) <==> Trim(form.title) == []
    ensures r == Some(MissingAuthor) <==> Trim(form.title) != [] && Trim(form.author) == []
    ensures r == Some(MissingContent) <==> Trim(form.title) != [] && Trim(form.author) != [] && Trim(form.content) == []
  {
    if Trim(form.title) == [] then Some(MissingTitle)
    else if Trim(form.author) == [] then Some(MissingAuthor)
    else if Trim(form.content) == [] then Some(MissingContent)
    else None
  }

  /** The record handleAddBlog creates: text fields trimmed, tags parsed */
  function NewBlogPost(form: BlogForm, id: int, createdAt: string): (p: BlogPost)
    ensures p.id == id && p.createdAt == createdAt && p.updatedAt == None
    ensures p.title == Trim(form.title) && p.author == Trim(form.author) && p.content == Trim(form.content)
    ensures p.category == OrNull(form.category) && p.image == OrNull(form.image) && p.tags == ParseTags(form.tags)
  {
    BlogPost(id, Trim(form.title), Trim(form.author), OrNull(form.category), Trim(form.content),
             OrNull(form.image), ParseTags(form.tags), createdAt, None)
  }

  /** The update of handleEditBlog; identity and creation time survive */
  function EditedPost(p: BlogPost, form: BlogForm, updatedAt: string): (r: BlogPost)
    ensures r.id == p.id && r.createdAt == p.createdAt && r.updatedAt == Some(updatedAt)
    ensures r == NewBlogPost(form, p.id, p.createdAt).(updatedAt := Some(updatedAt))
  {
    p.(title := Trim(form.title), author := Trim(form.author), category := OrNull(form.category),
       content := Trim(form.content), image := OrNull(form.image), tags := ParseTags(form.tags),
       updatedAt := Some(updatedAt))
  }

  /** editBlogPost: the edit form filled from a post, tags joined with ', ' */
  function BlogFormOf(p: BlogPost): (f: BlogForm)
    ensures f.title == p.title && f.author == p.author && f.content == p.content
    ensures PostStored(p) ==> OrNull(f.category) == p.category && OrNull(f.image) == p.image && ParseTags(f.tags) == p.tags
  {
    var f := BlogForm(p.title, p.author, OrEmpty(p.category), p.content, OrEmpty(p.image), Join(p.tags, ", "));
    assert PostStored(p) ==> ParseTags(f.tags) == p.tags by {
      if PostStored(p) {
        TagsRoundTrip(p.tags);
      }
    }
    f
  }

  /** The shape of the posts the panel stores */
  predicate PostStored(p: BlogPost) {
    NoBlankEnds(p.title) && NoBlankEnds(p.author) && NoBlankEnds(p.content) &&
    p.category != Some([]) && p.image != Some([]) &&
    forall k :: 0 <= k < |p.tags| ==> IsTag(p.tags[k])
  }

  lemma ParsedTagsAreTags(text: string)
    ensures forall k :: 0 <= k < |ParseTags(text)| ==> IsTag(ParseTags(text)[k])
  {
    var tags := ParseTags(text);
    forall k | 0 <= k < |tags| ensures IsTag(tags[k]) {
      assert tags[k] in tags;
    }
  }

  lemma NewBlogPostStored(form: BlogForm, id: int, createdAt: string)
    ensures PostStored(NewBlogPost(form, id, createdAt))
  {
    TrimEnds(form.title);
    TrimEnds(form.author);
    TrimEnds(form.content);
    ParsedTagsAreTags(form.tags);
  }

  /** Opening a stored post in the edit form and saving it unchanged changes only updatedAt */
  lemma PostEditRoundTrip(p: BlogPost, updatedAt: string)
    requires PostStored(p)
    ensures EditedPost(p, BlogFormOf(p), updatedAt) == p.(updatedAt := Some(updatedAt))
  {
    var form := BlogFormOf(p);
    var r := EditedPost(p, form, updatedAt);
    assert r.title == p.title by { TrimOfTrimmed(p.title); }
    assert r.author == p.author by { TrimOfTrimmed(p.author); }
    assert r.content == p.content by { TrimOfTrimmed(p.content); }
    assert r.category == p.category && r.image == p.image && r.tags == p.tags;
  }

  /** handleEditBlog's replacement of the first post with the id */
  function EditPostById(posts: seq<BlogPost>, id: int, form: BlogForm, updatedAt: string): (r: seq<BlogPost>)
    ensures |r| == |posts|
    ensures var i := FindIndex(posts, PostId, id);
      (i < 0 ==> r == posts) &&
      (i >= 0 ==> r[i] == EditedPost(posts[i], form, updatedAt) &&
                  forall k :: 0 <= k < |posts| && k != i ==> r[k] == posts[k])
  {
    UpdateFirst(posts, PostId, id, (p: BlogPost) => EditedPost(p, form, updatedAt))
  }

  /** The 200-character preview of a post in the admin list */
  function Preview(content: string): (r: string)
    ensures |content| <= 200 ==> r == content
    ensures |r| <= 203
    ensures |content| > 200 ==> |r| == 203 && r[..200] == content[..200] && r[200..] == "..."
  {
    if |content| > 200 then content[..200] + "..." else content
  }

  const Categories: map<string, string> := map[
    "egitim" := "Eğitim",
    "gelisim" := "Gelişim",
    "etkinlik" := "Etkinlik",
    "saglik" := "Sağlık",
    "diger" := "Diğer"]

  /** getCategoryName: the label of a known category, the key itself otherwise */
  function CategoryName(category: string): (r: string)
    ensures category in Categories ==> r == Categories[category]
    ensures category !in Categories ==> r == category
  {
    if category in Categories then Categories[category] else category
  }

  // ---------------------------------------------------------------- contact messages

  function MessageId(m: ContactMessage): int { m.id }

  /** markAsRead / markAsUnread: the flag of the first message with the id */
  function SetReadFlag(messages: seq<ContactMessage>, id: int, flag: bool): (r: seq<ContactMessage>)
    ensures |r| == |messages|
    ensures forall k :: 0 <= k < |r| ==> r[k].id == messages[k].id
    ensures var i := FindIndex(messages, MessageId, id);
      (i < 0 ==> r == messages) &&
      (i >= 0 ==> r[i] == messages[i].(read := flag) &&
                  forall k :: 0 <= k < |messages| && k != i ==> r[k] == messages[k])
  {
    UpdateFirst(messages, MessageId, id, (m: ContactMessage) => m.(read := flag))
  }

  /** Marking twice is marking once */
  lemma SetReadFlagIdempotent(messages: seq<ContactMessage>, id: int, flag: bool)
    ensures SetReadFlag(SetReadFlag(messages, id, flag), id, flag) == SetReadFlag(messages, id, flag)
  {
    var i := FindIndex(messages, MessageId, id);
    if i >= 0 {
      FindIndexAfterUpdate(messages, i, messages[i].(read := flag), MessageId, id);
    }
  }

  /** Marking a message read and then unread restores the inbox when it was unread */
  lemma MarkReadThenUnread(messages: seq<ContactMessage>, id: int)
    requires var i := FindIndex(messages, MessageId, id); i >= 0 ==> !messages[i].read
    ensures SetReadFlag(SetReadFlag(messages, id, true), id, false) == messages
  {
    var i := FindIndex(messages, MessageId, id);
    if i >= 0 {
      FindIndexAfterUpdate(messages, i, messages[i].(read := true), MessageId, id);
    }
  }

  predicate IsRead(m: ContactMessage) { m.read }
  predicate IsUnread(m: ContactMessage) { !m.read }

  /** The filter inside loadContactMessages: 'unread', 'read', anything else shows all */
  function FilteredMessages(messages: seq<ContactMessage>, filter: string): (r: seq<ContactMessage>)
    ensures filter == "unread" ==> forall k :: 0 <= k < |r| ==> !r[k].read
    ensures filter == "read" ==> forall k :: 0 <= k < |r| ==> r[k].read
    ensures filter == "unread" ==> forall k :: 0 <= k < |messages| && !messages[k].read ==> messages[k] in r
    ensures filter == "read" ==> forall k :: 0 <= k < |messages| && messages[k].read ==> messages[k] in r
    ensures filter != "unread" && filter != "read" ==> r == messages
    ensures forall m :: m in r ==> m in messages
  {
    if filter == "unread" then Filter(messages, IsUnread)
    else if filter == "read" then Filter(messages, IsRead)
    else messages
  }

  /** The unread and the read view together hold every message */
  lemma ReadAndUnreadPartition(messages: seq<ContactMessage>)
    ensures |FilteredMessages(messages, "unread")| + |FilteredMessages(messages, "read")| == |messages|
  {
    FilterPartition(messages, IsRead, IsUnread);
  }

  /** Filtering keeps source order: the view of an appended inbox is the view of each part */
  lemma FilterViewsConcat(older: seq<ContactMessage>, newer: seq<ContactMessage>, filter: string)
    ensures FilteredMessages(newer + older, filter) == FilteredMessages(newer, filter) + FilteredMessages(older, filter)
  {
    FilterConcat(newer, older, IsUnread);
    FilterConcat(newer, older, IsRead);
  }

  datatype InboxView = EmptyInbox(heading: string) | MessageList(messages: seq<ContactMessage>)

  /** loadContactMessages: the empty-state heading, or the filtered messages in order */
  function Inbox(messages: seq<ContactMessage>, filter: string): (v: InboxView)
    ensures v.EmptyInbox? <==> FilteredMessages(messages, filter) == []
    ensures v.MessageList? ==> v.messages == FilteredMessages(messages, filter)
    ensures v.EmptyInbox? && filter == "all" ==> v.heading == "Henüz mesaj bulunmuyor"
    ensures v.EmptyInbox? && filter == "unread" ==> v.heading == "Okunmamış mesaj bulunmuyor"
    ensures v.EmptyInbox? && filter != "all" && filter != "unread" ==> v.heading == "Okunmuş mesaj bulunmuyor"
  {
    var shown := FilteredMessages(messages, filter);
    if shown == [] then
      EmptyInbox(if filter == "all" then "Henüz mesaj bulunmuyor"
                 else if filter == "unread" then "Okunmamış mesaj bulunmuyor"
                 else "Okunmuş mesaj bulunmuyor")
    else MessageList(shown)
  }

  datatype DeleteOutcome = NotConfirmed | Removed | NothingRemoved

  // ---------------------------------------------------------------- the panel

  class AdminPanel {
    const local: StorageArea
    const session: StorageArea
    var screen: Screen
    var activities: seq<Activity>
    var blogPosts: seq<BlogPost>
    var contactMessages: seq<ContactMessage>
    /** Auto-logins scheduled by a successful password setup and not yet fired */
    var pendingAutoLogins: nat

    ghost predicate Valid()
      reads this
    {
      local != session
    }

    /** Page load: the three lists are read from storage, then checkAuth picks the screen */
    constructor (local: StorageArea, session: StorageArea)
      requires local != session
      ensures Valid() && this.local == local && this.session == session
      ensures activities == StoredActivities(local.items)
      ensures blogPosts == StoredBlogPosts(local.items)
      ensures contactMessages == StoredMessages(local.items)
      ensures screen == SelectScreen(session.items, local.items) && pendingAutoLogins == 0
    {
      this.local := local;
      this.session := session;
      activities := StoredActivities(local.items);
      blogPosts := StoredBlogPosts(local.items);
      contactMessages := StoredMessages(local.items);
      screen := SelectScreen(session.items, local.items);
      pendingAutoLogins := 0;
    }

    /** checkAuth */
    method CheckAuth()
      modifies this
      ensures screen == SelectScreen(session.items, local.items)
      ensures activities == old(activities) && blogPosts == old(blogPosts) && contactMessages == old(contactMessages)
      ensures pendingAutoLogins == old(pendingAutoLogins)
    {
      if FlagIsTrue(session.items, LoggedInKey) {
        screen := Dashboard;
      } else if FlagIsTrue(local.items, PasswordSetupKey) {
        screen := LoginScreen;
      } else {
        screen := PasswordSetupScreen;
      }
    }

    /** handleLogin: success sets the session flag and shows the dashboard; failure changes nothing */
    method HandleLogin(username: string, password: string) returns (success: bool)
      requires Valid()
      modifies this, session
      ensures success <==> LoginAccepted(local.items, username, password)
      ensures success ==> session.items == old(session.items)[LoggedInKey := Flag("true")] && screen == Dashboard
      ensures !success ==> session.items == old(session.items) && screen == old(screen)
      ensures local.items == old(local.items)
      ensures activities == old(activities) && blogPosts == old(blogPosts) && contactMessages == old(contactMessages)
      ensures pendingAutoLogins == old(pendingAutoLogins)
    {
      var credentials := EffectiveCredentials(local.items);
      success := username == credentials.username && password == credentials.password;
      if success {
        session.SetItem(LoggedInKey, Flag("true"));
        screen := Dashboard;
      }
    }

    /** logout */
    method Logout()
      requires Valid()
      modifies this, session
      ensures session.items == old(session.items) - {LoggedInKey} && screen == LoginScreen
      ensures local.items == old(local.items)
      ensures activities == old(activities) && blogPosts == old(blogPosts) && contactMessages == old(contactMessages)
      ensures pendingAutoLogins == old(pendingAutoLogins)
    {
      session.RemoveItem(LoggedInKey);
      screen := LoginScreen;
    }

    /** handlePasswordSetup: a rejection writes nothing; success stores the pair, the flag, and schedules an auto-login */
    method HandlePasswordSetup(username: string, password: string, confirmPassword: string) returns (outcome: SetupOutcome)
      requires Valid()
      modifies this, local
      ensures outcome == SetupDecision(username, password, confirmPassword)
      ensures outcome == SetupSaved ==>
        local.items == old(local.items)[CredentialsKey := CredentialPair(Credentials(username, password))][PasswordSetupKey := Flag("true")] &&
        pendingAutoLogins == old(pendingAutoLogins) + 1
      ensures outcome != SetupSaved ==> local.items == old(local.items) && pendingAutoLogins == old(pendingAutoLogins)
      ensures session.items == old(session.items) && screen == old(screen)
      ensures activities == old(activities) && blogPosts == old(blogPosts) && contactMessages == old(contactMessages)
    {
      if |username| < 3 {
        return UsernameTooShort;
      }
      if |password| < 6 {
        return PasswordTooShort;
      }
      if password != confirmPassword {
        return PasswordsDiffer;
      }
      local.SetItem(CredentialsKey, CredentialPair(Credentials(username, password)));
      local.SetItem(PasswordSetupKey, Flag("true"));
      pendingAutoLogins := pendingAutoLogins + 1;
      outcome := SetupSaved;
    }

    /** The auto-login timer of a successful setup fires */
    method FireAutoLogin()
      requires Valid() && pendingAutoLogins > 0
      modifies this, session
      ensures session.items == old(session.items)[LoggedInKey := Flag("true")] && screen == Dashboard
      ensures pendingAutoLogins == old(pendingAutoLogins) - 1
      ensures local.items == old(local.items)
      ensures activities == old(activities) && blogPosts == old(blogPosts) && contactMessages == old(contactMessages)
    {
      session.SetItem(LoggedInKey, Flag("true"));
      screen := Dashboard;
      pendingAutoLogins := pendingAutoLogins - 1;
    }

    /** handleChangePassword: the username is kept; any failure leaves the credentials as they were */
    method HandleChangePassword(currentPassword: string, newPassword: string, confirmNewPassword: string)
      returns (outcome: ChangeOutcome)
      requires Valid()
      modifies local
      ensures outcome == ChangeDecision(EffectiveCredentials(old(local.items)), currentPassword, newPassword, confirmNewPassword)
      ensures outcome == PasswordChanged ==>
        local.items == old(local.items)[CredentialsKey :=
          CredentialPair(Credentials(EffectiveCredentials(old(local.items)).username, newPassword))]
      ensures outcome != PasswordChanged ==> local.items == old(local.items)
    {
      var credentials := EffectiveCredentials(local.items);
      if currentPassword != credentials.password {
        return WrongCurrentPassword;
      }
      if |newPassword| < 6 {
        return NewPasswordTooShort;
      }
      if newPassword != confirmNewPassword {
        return NewPasswordsDiffer;
      }
      local.SetItem(CredentialsKey, CredentialPair(Credentials(credentials.username, newPassword)));
      outcome := PasswordChanged;
    }

    /**
     * resetAdminCredentials, then the reload: the three keys it names are removed (the
     * setup flag is not among them) and the page starts again from storage.
     */
    method ResetAdminCredentials()
      requires Valid()
      modifies this, local
      ensures local.items == old(local.items) - {CredentialsKey} - {SetupCompleteKey} - {SessionKey}
      ensures activities == StoredActivities(local.items) && blogPosts == StoredBlogPosts(local.items)
      ensures contactMessages == StoredMessages(local.items)
      ensures screen == SelectScreen(session.items, local.items) && pendingAutoLogins == 0
      ensures session.items == old(session.items)
    {
      local.RemoveItem(CredentialsKey);
      local.RemoveItem(SetupCompleteKey);
      local.RemoveItem(SessionKey);
      activities := StoredActivities(local.items);
      blogPosts := StoredBlogPosts(local.items);
      contactMessages := StoredMessages(local.items);
      screen := SelectScreen(session.items, local.items);
      pendingAutoLogins := 0;
    }

    /** handleAddActivity: the new record goes first */
    method HandleAddActivity(form: ActivityForm, now: int, createdAt: string)
      requires Valid()
      modifies this, local
      ensures activities == [NewActivity(form, now, createdAt)] + old(activities)
      ensures local.items == old(local.items)[ActivitiesKey := Activities(activities)]
      ensures blogPosts == old(blogPosts) && contactMessages == old(contactMessages)
      ensures screen == old(screen) && pendingAutoLogins == old(pendingAutoLogins) && session.items == old(session.items)
    {
      activities := [NewActivity(form, now, createdAt)] + activities;
      local.SetItem(ActivitiesKey, Activities(activities));
    }

    /** handleEditActivity: silent when the id is missing */
    method HandleEditActivity(id: int, form: ActivityForm, updatedAt: string)
      requires Valid()
      modifies this, local
      ensures activities == EditActivityById(old(activities), id, form, updatedAt)
      ensures FindIndex(old(activities), ActivityId, id) >= 0 ==> local.items == old(local.items)[ActivitiesKey := Activities(activities)]
      ensures FindIndex(old(activities), ActivityId, id) < 0 ==> local.items == old(local.items)
      ensures blogPosts == old(blogPosts) && contactMessages == old(contactMessages)
      ensures screen == old(screen) && pendingAutoLogins == old(pendingAutoLogins) && session.items == old(session.items)
    {
      var activityIndex := FindIndex(activities, ActivityId, id);
      if activityIndex != -1 {
        activities := activities[activityIndex := EditedActivity(activities[activityIndex], form, updatedAt)];
        local.SetItem(ActivitiesKey, Activities(activities));
      }
    }

    /** deleteActivity: only after confirmation, and with no not-found report */
    method DeleteActivity(id: int, confirmed: bool)
      requires Valid()
      modifies this, local
      ensures confirmed ==>
        activities == WithoutKey(old(activities), ActivityId, id) &&
        local.items == old(local.items)[ActivitiesKey := Activities(activities)]
      ensures !confirmed ==> activities == old(activities) && local.items == old(local.items)
      ensures blogPosts == old(blogPosts) && contactMessages == old(contactMessages)
      ensures screen == old(screen) && pendingAutoLogins == old(pendingAutoLogins) && session.items == old(session.items)
    {
      if confirmed {
        activities := WithoutKey(activities, ActivityId, id);
        local.SetItem(ActivitiesKey, Activities(activities));
      }
    }

    /** handleAddBlog: validated, trimmed, parsed, first in the list */
    method HandleAddBlog(form: BlogForm, now: int, createdAt: string) returns (outcome: BlogOutcome)
      requires Valid()
      modifies this, local
      ensures BlogFormCheck(form).Some? ==>
        outcome == BlogFormCheck(form).value &&
        blogPosts == old(blogPosts) && local.items == old(local.items)
      ensures BlogFormCheck(form).None? ==>
        outcome == BlogSaved &&
        blogPosts == [NewBlogPost(form, now, createdAt)] + old(blogPosts) &&
        local.items == old(local.items)[BlogPostsKey := BlogPosts(blogPosts)]
      ensures activities == old(activities) && contactMessages == old(contactMessages)
      ensures screen == old(screen) && pendingAutoLogins == old(pendingAutoLogins) && session.items == old(session.items)
    {
      var check := BlogFormCheck(form);
      if check.Some? {
        return check.value;
      }
      blogPosts := [NewBlogPost(form, now, createdAt)] + blogPosts;
      local.SetItem(BlogPostsKey, BlogPosts(blogPosts));
      outcome := BlogSaved;
    }

    /** handleEditBlog: validation first, then the not-found report */
    method HandleEditBlog(id: int, form: BlogForm, updatedAt: string) returns (outcome: BlogOutcome)
      requires Valid()
      modifies this, local
      ensures BlogFormCheck(form).Some? ==> outcome == BlogFormCheck(form).value
      ensures BlogFormCheck(form).None? && FindIndex(old(blogPosts), PostId, id) < 0 ==> outcome == BlogNotFound
      ensures outcome == BlogSaved <==> BlogFormCheck(form).None? && FindIndex(old(blogPosts), PostId, id) >= 0
      ensures outcome == BlogSaved ==>
        blogPosts == EditPostById(old(blogPosts), id, form, updatedAt) &&
        local.items == old(local.items)[BlogPostsKey := BlogPosts(blogPosts)]
      ensures outcome != BlogSaved ==> blogPosts == old(blogPosts) && local.items == old(local.items)
      ensures activities == old(activities) && contactMessages == old(contactMessages)
      ensures screen == old(screen) && pendingAutoLogins == old(pendingAutoLogins) && session.items == old(session.items)
    {
      var check := BlogFormCheck(form);
      if check.Some? {
        return check.value;
      }
      var blogIndex := FindIndex(blogPosts, PostId, id);
      if blogIndex == -1 {
        return BlogNotFound;
      }
      blogPosts := EditPostById(blogPosts, id, form, updatedAt);
      local.SetItem(BlogPostsKey, BlogPosts(blogPosts));
      outcome := BlogSaved;
    }

    /** deleteBlogPost: storage is written only when a post was removed */
    method DeleteBlogPost(id: int, confirmed: bool) returns (outcome: DeleteOutcome)
      requires Valid()
      modifies this, local
      ensures !confirmed ==> outcome == NotConfirmed
      ensures outcome == Removed <==> confirmed && FindIndex(old(blogPosts), PostId, id) >= 0
      ensures outcome == Removed ==>
        blogPosts == WithoutKey(old(blogPosts), PostId, id) &&
        |blogPosts| < |old(blogPosts)| && local.items == old(local.items)[BlogPostsKey := BlogPosts(blogPosts)]
      ensures outcome != Removed ==> blogPosts == old(blogPosts) && local.items == old(local.items)
      ensures activities == old(activities) && contactMessages == old(contactMessages)
      ensures screen == old(screen) && pendingAutoLogins == old(pendingAutoLogins) && session.items == old(session.items)
    {
      if !confirmed {
        return NotConfirmed;
      }
      var initialLength := |blogPosts|;
      if FindIndex(blogPosts, PostId, id) < 0 {
        WithoutAbsentKey(blogPosts, PostId, id);
      }
      blogPosts := WithoutKey(blogPosts, PostId, id);
      if |blogPosts| < initialLength {
        local.SetItem(BlogPostsKey, BlogPosts(blogPosts));
        outcome := Removed;
      } else {
        outcome := NothingRemoved;
      }
    }

    /** markAsRead (flag true) and markAsUnread (flag false) */
    method SetMessageRead(messageId: int, flag: bool)
      requires Valid()
      modifies this, local
      ensures contactMessages == SetReadFlag(old(contactMessages), messageId, flag)
      ensures FindIndex(old(contactMessages), MessageId, messageId) >= 0 ==>
        local.items == old(local.items)[ContactMessagesKey := Messages(contactMessages)]
      ensures FindIndex(old(contactMessages), MessageId, messageId) < 0 ==> local.items == old(local.items)
      ensures activities == old(activities) && blogPosts == old(blogPosts)
      ensures screen == old(screen) && pendingAutoLogins == old(pendingAutoLogins) && session.items == old(session.items)
    {
      var messageIndex := FindIndex(contactMessages, MessageId, messageId);
      if messageIndex != -1 {
        contactMessages := contactMessages[messageIndex := contactMessages[messageIndex].(read := flag)];
        local.SetItem(ContactMessagesKey, Messages(contactMessages));
      }
    }

    method MarkAsRead(messageId: int)
      requires Valid()
      modifies this, local
      ensures contactMessages == SetReadFlag(old(contactMessages), messageId, true)
      ensures FindIndex(old(contactMessages), MessageId, messageId) >= 0 ==>
        local.items == old(local.items)[ContactMessagesKey := Messages(contactMessages)]
      ensures FindIndex(old(contactMessages), MessageId, messageId) < 0 ==> local.items == old(local.items)
      ensures activities == old(activities) && blogPosts == old(blogPosts)
      ensures screen == old(screen) && pendingAutoLogins == old(pendingAutoLogins) && session.items == old(session.items)
    {
      SetMessageRead(messageId, true);
    }

    method MarkAsUnread(messageId: int)
      requires Valid()
      modifies this, local
      ensures contactMessages == SetReadFlag(old(contactMessages), messageId, false)
      ensures FindIndex(old(contactMessages), MessageId, messageId) >= 0 ==>
        local.items == old(local.items)[ContactMessagesKey := Messages(contactMessages)]
      ensures FindIndex(old(contactMessages), MessageId, messageId) < 0 ==> local.items == old(local.items)
      ensures activities == old(activities) && blogPosts == old(blogPosts)
      ensures screen == old(screen) && pendingAutoLogins == old(pendingAutoLogins) && session.items == old(session.items)
    {
      SetMessageRead(messageId, false);
    }

    /** deleteMessage: storage is written only when a message was removed */
    method DeleteMessage(messageId: int, confirmed: bool) returns (outcome: DeleteOutcome)
      requires Valid()
      modifies this, local
      ensures !confirmed ==> outcome == NotConfirmed
      ensures outcome == Removed <==> confirmed && FindIndex(old(contactMessages), MessageId, messageId) >= 0
      ensures outcome == Removed ==>
        contactMessages == WithoutKey(old(contactMessages), MessageId, messageId) &&
        |contactMessages| < |old(contactMessages)| &&
        local.items == old(local.items)[ContactMessagesKey := Messages(contactMessages)]
      ensures outcome != Removed ==> contactMessages == old(contactMessages) && local.items == old(local.items)
      ensures activities == old(activities) && blogPosts == old(blogPosts)
      ensures screen == old(screen) && pendingAutoLogins == old(pendingAutoLogins) && session.items == old(session.items)
    {
      if !confirmed {
        return NotConfirmed;
      }
      var initialLength := |contactMessages|;
      if FindIndex(contactMessages, MessageId, messageId) < 0 {
        WithoutAbsentKey(contactMessages, MessageId, messageId);
      }
      contactMessages := WithoutKey(contactMessages, MessageId, messageId);
      if |contactMessages| < initialLength {
        local.SetItem(ContactMessagesKey, Messages(contactMessages));
        outcome := Removed;
      } else {
        outcome := NothingRemoved;
      }
    }

    /** autoSave: the three lists written back */
    method AutoSave()
      requires Valid()
      modifies local
      ensures local.items == old(local.items)[ActivitiesKey := Activities(activities)]
        [BlogPostsKey := BlogPosts(blogPosts)][ContactMessagesKey := Messages(contactMessages)]
    {
      local.SetItem(ActivitiesKey, Activities(activities));
      local.SetItem(BlogPostsKey, BlogPosts(blogPosts));
      local.SetItem(ContactMessagesKey, Messages(contactMessages));
    }
  }
}
