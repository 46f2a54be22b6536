/** The public site: the contact form's storage logic and the read-only activity and blog grids. */
module Site {
  import opened Options
  import opened Records
  import opened Storage
  import opened Security

  // ---------------------------------------------------------------- contact form

  const LastSubmissionKey: string := "last_contact_submission"
  /** Two accepted submissions must be at least this many milliseconds apart */
  const RateLimitWindow: int := 30000
  const MaxStoredMessages: nat := 1000

  /** The validation rules handleContactForm passes to validateFormData */
  const ContactRules: map<string, Rule> := map[
    "name" := Rule(TextField, true, 2, 100),
    "email" := Rule(EmailField, true, 0, 0),
    "message" := Rule(TextField, true, 10, 1000)]

  /** Object.entries of the form data object, in its key order */
  function ContactEntries(name: string, email: string, message: string): seq<(string, string)> {
    [("name", name), ("email", email), ("message", message)]
  }

  /** The contact form's validation report */
  function ContactValidation(name: string, email: string, message: string, configuredMinLength: nat): FormReport {
    CheckEntries(ContactEntries(name, email, message), ContactRules, configuredMinLength)
  }

  /** The sanitised value of the k-th contact field is the sanitised text typed into it */
  lemma ContactSanitizedEntry(name: string, email: string, message: string, configuredMinLength: nat, k: nat)
    requires k < 3
    ensures var e := ContactEntries(name, email, message)[k];
      var d := ContactValidation(name, email, message, configuredMinLength).sanitizedData;
      e.0 in d && d[e.0] == SanitizeText(Str(e.1))
  {
    var entries := ContactEntries(name, email, message);
    if k == 0 {
      assert entries[0] == ("name", name) && entries[1].0 == "email" && entries[2].0 == "message";
      assert ContactRules["name"].kind == TextField;
    } else if k == 1 {
      assert entries[1] == ("email", email) && entries[2].0 == "message";
      assert ContactRules["email"].kind == EmailField;
    } else {
      assert entries[2] == ("message", message);
      assert ContactRules["message"].kind == TextField;
    }
    SanitizedValueOfLastEntry(entries, ContactRules, configuredMinLength, k);
  }

  /** The three sanitised values are always present, and each is what its rule makes of the typed text */
  lemma ContactSanitizedData(name: string, email: string, message: string, configuredMinLength: nat)
    ensures var d := ContactValidation(name, email, message, configuredMinLength).sanitizedData;
      "name" in d && "email" in d && "message" in d &&
      d["name"] == SanitizeText(Str(name)) && d["email"] == SanitizeText(Str(email)) &&
      d["message"] == SanitizeText(Str(message))
  {
    var d := ContactValidation(name, email, message, configuredMinLength).sanitizedData;
    ContactSanitizedEntry(name, email, message, configuredMinLength, 0);
    assert "name" in d && d["name"] == SanitizeText(Str(name));
    ContactSanitizedEntry(name, email, message, configuredMinLength, 1);
    assert "email" in d && d["email"] == SanitizeText(Str(email));
    ContactSanitizedEntry(name, email, message, configuredMinLength, 2);
  }

  /** The stored time of the last accepted submission, read back with parseInt */
  function LastSubmission(items: map<string, Value>): Option<int> {
    if LastSubmissionKey in items && items[LastSubmissionKey].Timestamp? then Some(items[LastSubmissionKey].millis) else None
  }

  /** `lastSubmission && now - parseInt(lastSubmission) < 30000` */
  predicate RateLimited(items: map<string, Value>, now: int): (r: bool)
    ensures LastSubmission(items).None? ==> !r
    ensures LastSubmission(items).Some? ==> (r <==> now < LastSubmission(items).value + 30000)
  {
    LastSubmission(items).Some? && now - LastSubmission(items).value < RateLimitWindow
  }

  /** unshift, then slice(0, 1000): newest first, the oldest beyond the cap dropped */
  function Inboxed(messages: seq<ContactMessage>, m: ContactMessage): (r: seq<ContactMessage>)
    ensures 1 <= |r| <= MaxStoredMessages && r[0] == m
    ensures |messages| < MaxStoredMessages ==> r[1..] == messages
    ensures |messages| >= MaxStoredMessages ==> r[1..] == messages[..MaxStoredMessages - 1]
  {
    var all := [m] + messages;
    if |all| > MaxStoredMessages then all[..MaxStoredMessages] else all
  }

  datatype ContactOutcome =
    | Invalid(errors: map<string, FieldError>)
    | RateLimitExceeded
    | Accepted(message: ContactMessage)

  /** What handleContactForm decides: validation first, then the rate limit, then the new message */
  function ContactDecision(items: map<string, Value>, name: string, email: string, message: string,
                           now: int, id: int, createdAt: string, userAgent: string, configuredMinLength: nat): (r: ContactOutcome)
    ensures r.Invalid? ==> r.errors == ContactValidation(name, email, message, configuredMinLength).errors
    ensures r.RateLimitExceeded? <==>
      ContactValidation(name, email, message, configuredMinLength).isValid && RateLimited(items, now)
    ensures r.Accepted? ==>
      r.message.id == id && r.message.createdAt == createdAt && !r.message.read &&
      r.message.ip == "client-side" && r.message.userAgent == userAgent
  {
    var validation := ContactValidation(name, email, message, configuredMinLength);
    ContactSanitizedData(name, email, message, configuredMinLength);
    if !validation.isValid then Invalid(validation.errors)
    else if RateLimited(items, now) then RateLimitExceeded
    else
      Accepted(ContactMessage(id, validation.sanitizedData["name"], validation.sanitizedData["email"],
                              validation.sanitizedData["message"], createdAt, false, "client-side", userAgent))
  }

  /**
   * handleContactForm; only an accepted message writes storage, and then both keys.
   * `now` is the clock reading the rate limit compares and stores; `id` is the
   * separate, later reading the new message takes as its id.
   */
  method HandleContactForm(local: StorageArea, name: string, email: string, message: string,
                           now: int, id: int, createdAt: string, userAgent: string, configuredMinLength: nat)
    returns (outcome: ContactOutcome)
    modifies local
    ensures outcome == ContactDecision(old(local.items), name, email, message, now, id, createdAt, userAgent, configuredMinLength)
    ensures !outcome.Accepted? ==> local.items == old(local.items)
    ensures outcome.Accepted? ==>
      local.items == old(local.items)
        [ContactMessagesKey := Messages(Inboxed(StoredMessages(old(local.items)), outcome.message))]
        [LastSubmissionKey := Timestamp(now)]
  {
    var validation := ValidateFormData(ContactEntries(name, email, message), ContactRules, configuredMinLength);
    ContactSanitizedData(name, email, message, configuredMinLength);
    if !validation.isValid {
      return Invalid(validation.errors);
    }
    var lastSubmission := LastSubmission(local.items);
    if lastSubmission.Some? && now - lastSubmission.value < RateLimitWindow {
      return RateLimitExceeded;
    }
    var contactMessage := ContactMessage(id, validation.sanitizedData["name"], validation.sanitizedData["email"],
                                         validation.sanitizedData["message"], createdAt, false, "client-side", userAgent);
    var contactMessages := StoredMessages(local.items);
    contactMessages := [contactMessage] + contactMessages;
    if |contactMessages| > MaxStoredMessages {
      contactMessages := contactMessages[..MaxStoredMessages];
    }
    local.SetItem(ContactMessagesKey, Messages(contactMessages));
    local.SetItem(LastSubmissionKey, Timestamp(now));
    outcome := Accepted(contactMessage);
  }

  /** A message is accepted exactly when the form validates and the rate limit does not apply */
  lemma AcceptedIff(items: map<string, Value>, name: string, email: string, message: string,
                    now: int, id: int, createdAt: string, userAgent: string, configuredMinLength: nat)
    ensures ContactDecision(items, name, email, message, now, id, createdAt, userAgent, configuredMinLength).Accepted? <==>
      ContactValidation(name, email, message, configuredMinLength).isValid && !RateLimited(items, now)
    ensures ContactDecision(items, name, email, message, now, id, createdAt, userAgent, configuredMinLength).Invalid? <==>
      !ContactValidation(name, email, message, configuredMinLength).isValid
  {
  }

  /** The rate limit is strict: a gap of exactly 30000 ms is allowed */
  lemma RateLimitBoundary(items: map<string, Value>, last: int, now: int)
    requires LastSubmissionKey in items && items[LastSubmissionKey] == Timestamp(last)
    ensures RateLimited(items, now) <==> now - last < 30000
    ensures !RateLimited(items, last + 30000)
  {
  }

  /** A required text field that passes has a sanitised length within its limits */
  lemma PassingTextField(value: string, rule: Rule, configuredMinLength: nat)
    requires rule.kind == TextField && rule.required && rule.minLength > 0 && rule.maxLength > 0
    requires CheckField(value, rule, configuredMinLength).None?
    ensures rule.minLength <= |SanitizeText(Str(value))| <= rule.maxLength
  {
    CheckFieldPassesIff(value, rule, configuredMinLength);
    assert SanitizeField(value, rule) == SanitizeText(Str(value));
  }

  /** An email field that passes holds a well-formed address once sanitised */
  lemma PassingEmailField(value: string, rule: Rule, configuredMinLength: nat)
    requires rule.kind == EmailField
    requires CheckField(value, rule, configuredMinLength).None?
    ensures ValidateEmail(SanitizeText(Str(value)))
  {
    CheckFieldPassesIff(value, rule, configuredMinLength);
  }

  /** In a valid contact form each of the three fields passed all of its checks */
  lemma ContactFieldsPass(name: string, email: string, message: string, configuredMinLength: nat)
    requires ContactValidation(name, email, message, configuredMinLength).isValid
    ensures CheckField(name, ContactRules["name"], configuredMinLength).None?
    ensures CheckField(email, ContactRules["email"], configuredMinLength).None?
    ensures CheckField(message, ContactRules["message"], configuredMinLength).None?
  {
    var entries := ContactEntries(name, email, message);
    assert entries[0] == ("name", name) && entries[1] == ("email", email) && entries[2] == ("message", message);
    ValidFormFieldPasses(entries, ContactRules, configuredMinLength, 0);
    ValidFormFieldPasses(entries, ContactRules, configuredMinLength, 1);
    ValidFormFieldPasses(entries, ContactRules, configuredMinLength, 2);
  }

  /** In a valid contact form the sanitised name and message respect their limits and the email is well formed */
  lemma ContactFieldBounds(name: string, email: string, message: string, configuredMinLength: nat)
    requires ContactValidation(name, email, message, configuredMinLength).isValid
    ensures 2 <= |SanitizeText(Str(name))| <= 100 && 10 <= |SanitizeText(Str(message))| <= 1000
    ensures ValidateEmail(SanitizeText(Str(email)))
  {
    ContactFieldsPass(name, email, message, configuredMinLength);
    assert ContactRules["name"] == Rule(TextField, true, 2, 100);
    assert ContactRules["message"] == Rule(TextField, true, 10, 1000);
    PassingTextField(name, Rule(TextField, true, 2, 100), configuredMinLength);
    PassingEmailField(email, ContactRules["email"], configuredMinLength);
    PassingTextField(message, Rule(TextField, true, 10, 1000), configuredMinLength);
  }

  /** An accepted message is unread, carries the sanitised fields, and respects every length limit */
  lemma AcceptedMessageShape(items: map<string, Value>, name: string, email: string, message: string,
                             now: int, id: int, createdAt: string, userAgent: string, configuredMinLength: nat)
    requires ContactDecision(items, name, email, message, now, id, createdAt, userAgent, configuredMinLength).Accepted?
    ensures var m := ContactDecision(items, name, email, message, now, id, createdAt, userAgent, configuredMinLength).message;
      !m.read && m.id == id && m.createdAt == createdAt &&
      m.name == SanitizeText(Str(name)) && m.email == SanitizeText(Str(email)) && m.message == SanitizeText(Str(message)) &&
      2 <= |m.name| <= 100 && 10 <= |m.message| <= 1000 && ValidateEmail(m.email)
  {
    assert ContactValidation(name, email, message, configuredMinLength).isValid;
    ContactSanitizedData(name, email, message, configuredMinLength);
    ContactFieldBounds(name, email, message, configuredMinLength);
  }

  /** After an accepted submission, a second valid one within the window is refused */
  lemma SecondSubmissionRateLimited(items: map<string, Value>, inbox: seq<ContactMessage>, now: int, later: int)
    requires now <= later < now + 30000
    ensures RateLimited(items[ContactMessagesKey := Messages(inbox)][LastSubmissionKey := Timestamp(now)], later)
  {
  }

  // ---------------------------------------------------------------- public grids

  /** `image ? <img> : ''`: null and the empty string show no picture */
  function ShownImage(image: Option<string>): (r: Option<string>)
    ensures r.Some? <==> image.Some? && image.value != []
    ensures r.Some? ==> r == image
  {
    if image.Some? && image.value != [] then image else None
  }

  datatype ActivityCard = ActivityCard(image: Option<string>, title: string, date: string, location: string, description: string)

  datatype BlogCard = BlogCard(image: Option<string>, title: string, author: string, createdAt: string, content: string)

  /** A grid: the no-content block, or one card per item */
  datatype Grid<C> = NoContent | Cards(cards: seq<C>)

  function ActivityCardOf(a: Activity): ActivityCard {
    ActivityCard(ShownImage(a.image), a.title, a.date, a.location, a.description)
  }

  function BlogCardOf(p: BlogPost): BlogCard {
    BlogCard(ShownImage(p.image), p.title, p.author, p.createdAt, p.content)
  }

  /** loadActivities of the public page */
  function ActivityGrid(activities: seq<Activity>): (g: Grid<ActivityCard>)
    ensures g.NoContent? <==> activities == []
    ensures g.Cards? ==> |g.cards| == |activities| && forall k :: 0 <= k < |activities| ==> g.cards[k] == ActivityCardOf(activities[k])
  {
    if activities == [] then NoContent
    else Cards(seq(|activities|, k requires 0 <= k < |activities| => ActivityCardOf(activities[k])))
  }

  /** loadBlogPosts of the public page */
  function BlogGrid(posts: seq<BlogPost>): (g: Grid<BlogCard>)
    ensures g.NoContent? <==> posts == []
    ensures g.Cards? ==> |g.cards| == |posts| && forall k :: 0 <= k < |posts| ==> g.cards[k] == BlogCardOf(posts[k])
  {
    if posts == [] then NoContent
    else Cards(seq(|posts|, k requires 0 <= k < |posts| => BlogCardOf(posts[k])))
  }

  function CardsOf<C>(g: Grid<C>): seq<C> {
    if g.Cards? then g.cards else []
  }

  /** A newly added activity becomes the first card, followed by the cards that were there */
  lemma ActivityGridAfterAdd(a: Activity, activities: seq<Activity>)
    ensures ActivityGrid([a] + activities) == Cards([ActivityCardOf(a)] + CardsOf(ActivityGrid(activities)))
  {
    var before := CardsOf(ActivityGrid(activities));
    assert |before| == |activities|;
  }

  /** A newly added post becomes the first card, followed by the cards that were there */
  lemma BlogGridAfterAdd(p: BlogPost, posts: seq<BlogPost>)
    ensures BlogGrid([p] + posts) == Cards([BlogCardOf(p)] + CardsOf(BlogGrid(posts)))
  {
    var before := CardsOf(BlogGrid(posts));
    assert |before| == |posts|;
  }
}
