/**
 * The inbound-SMS handler of src/app/api/sms/inbound/route.ts: splitting a
 * message into a product link and notes, appending follow-up notes to the
 * last item, and adding a linked product to the sender's default list. The
 * database reads are inputs, its writes and the outgoing texts are effects.
 */
module SmsInbound {
  import opened Wrappers
  import opened Strings
  import opened Regex
  import opened UrlMetadata

  // ---------------------------------------------------------------------------
  // Link and notes

  /** `[^\s]` */
  const NotSpace := Space(true)

  // /(https?:\/\/[^\s]+)/i
  const UrlPattern := Regex([Open] + Lits("http") + [Opt(Lit('s'))] + Lits("://") + [Plus(NotSpace), Close], true)

  datatype UrlAndNotes = UrlAndNotes(url: Option<string>, notes: Option<string>)

  /** `extractUrlAndNotes` */
  function ExtractUrlAndNotes(text: string): (r: UrlAndNotes)
    ensures r.url.None? ==> r.notes.None?
    ensures r.notes.Some? ==> r.notes.value != [] && !IsJsSpace(r.notes.value[0])
                              && !IsJsSpace(r.notes.value[|r.notes.value| - 1])
  {
    match Capture(UrlPattern, text)
    case None => UrlAndNotes(None, None)
    case Some(url) =>
      var remaining := Trim(ReplaceFirst(text, url, ""));
      UrlAndNotes(Some(url), if |remaining| > 0 then Some(remaining) else None)
  }

  /** Where the scheme `http://` or `https://` (in any letter case) starting at `i` ends. */
  function SchemeEnd(s: string, i: nat): (r: Option<nat>)
    ensures r.Some? ==> r.value <= |s| && (r.value == i + 7 || r.value == i + 8)
  {
    var lower := ToLower(s);
    if OccursAt(lower, "https://", i) then Some(i + 8)
    else if OccursAt(lower, "http://", i) then Some(i + 7)
    else None
  }

  /** A link starts at `i`: a scheme followed by at least one non-space character. */
  predicate UrlStartsAt(s: string, i: nat) {
    SchemeEnd(s, i).Some? && SchemeEnd(s, i).value < |s| && !IsJsSpace(s[SchemeEnd(s, i).value])
  }

  lemma NoUpperInScheme()
    ensures forall k :: 0 <= k < |"http"| ==> !('A' <= "http"[k] <= 'Z')
    ensures forall k :: 0 <= k < |"://"| ==> !('A' <= "://"[k] <= 'Z')
    ensures "https://" == "http" + "s" + "://" && "http://" == "http" + "://"
  {
  }

  /** The items after `http`: an optional `s`, then `://` and the non-space run. */
  const AfterHttp := [Opt(Lit('s'))] + AfterS
  const AfterS := Lits("://") + [Plus(NotSpace), Close]

  /** The end of the non-space run from `j`, when it is not empty. */
  function RunEnd(s: string, j: nat): (r: Option<nat>)
    requires j <= |s|
    ensures r.Some? <==> j < |s| && !IsJsSpace(s[j])
    ensures r.Some? ==> j < r.value <= |s| && (r.value == |s| || IsJsSpace(s[r.value]))
    ensures r.Some? ==> forall k :: j <= k < r.value ==> !IsJsSpace(s[k])
  {
    var n := Run(NotSpace, s, j, true, Unbounded);
    assert RunMatches(NotSpace, s, j, j + n, true);
    if n >= 1 then Some(j + n) else None
  }

  lemma AfterSMatch(s: string, j: nat, cs: nat)
    requires cs <= j <= |s|
    ensures Match(AfterS, s, j, cs, true)
            == if LitsAt("://", s, j, true) && RunEnd(s, j + 3).Some?
               then Some(Span(RunEnd(s, j + 3).value, cs, RunEnd(s, j + 3).value)) else None
  {
    LitsPlusCloseMatch("://", NotSpace, s, j, cs, true);
  }

  lemma AfterHttpMatch(s: string, j: nat, cs: nat)
    requires cs <= j <= |s|
    ensures Match(AfterHttp, s, j, cs, true)
            == if j < |s| && ClassMatches(Lit('s'), s[j], true) && Match(AfterS, s, j + 1, cs, true).Some?
               then Match(AfterS, s, j + 1, cs, true) else Match(AfterS, s, j, cs, true)
  {
    OptMatch(Lit('s'), AfterS, s, j, cs, true);
  }

  lemma UrlItemsMatch(s: string, i: nat)
    requires i <= |s|
    ensures Match(UrlPattern.items, s, i, i, true)
            == if LitsAt("http", s, i, true) then Match(AfterHttp, s, i + 4, i, true) else None
  {
    var items := UrlPattern.items;
    assert items == [Open] + (Lits("http") + AfterHttp);
    assert items[1..] == Lits("http") + AfterHttp;
    LitsMatch("http", AfterHttp, s, i, i, true);
  }

  lemma LowerS(s: string, i: nat)
    requires i < |s|
    ensures OccursAt(ToLower(s), "s", i) <==> ClassMatches(Lit('s'), s[i], true)
  {
    LitsAtLower("s", s, i);
    assert LitsAt("s", s, i, true) <==> ClassMatches(Lit("s"[0]), s[i + 0], true);
  }

  lemma HttpsSplit(t: string, i: nat)
    ensures OccursAt(t, "https://", i) <==> OccursAt(t, "http", i) && OccursAt(t, "s", i + 4) && OccursAt(t, "://", i + 5)
  {
    OccursSplit(t, "http" + "s", "://", i);
    OccursSplit(t, "http", "s", i);
    assert "https://" == "http" + "s" + "://";
  }

  lemma HttpSplit(t: string, i: nat)
    ensures OccursAt(t, "http://", i) <==> OccursAt(t, "http", i) && OccursAt(t, "://", i + 4)
  {
    OccursSplit(t, "http", "://", i);
    assert "http://" == "http" + "://";
  }

  /** `https://` read off the pattern's literals, with case folding. */
  lemma HttpsLits(s: string, i: nat)
    ensures OccursAt(ToLower(s), "https://", i) <==>
      LitsAt("http", s, i, true) && i + 4 < |s| && ClassMatches(Lit('s'), s[i + 4], true) && LitsAt("://", s, i + 5, true)
  {
    HttpsSplit(ToLower(s), i);
    HttpLitsAt(s, i);
    ColonSlashesAt(s, i + 5);
    if i + 4 < |s| {
      LowerS(s, i + 4);
    }
  }

  lemma HttpLitsAt(s: string, i: nat)
    ensures LitsAt("http", s, i, true) <==> OccursAt(ToLower(s), "http", i)
  {
    NoUpperInScheme();
    LitsAtLower("http", s, i);
  }

  lemma ColonSlashesAt(s: string, i: nat)
    ensures LitsAt("://", s, i, true) <==> OccursAt(ToLower(s), "://", i)
  {
    NoUpperInScheme();
    LitsAtLower("://", s, i);
  }

  /** `http://` read off the pattern's literals, with case folding. */
  lemma HttpLits(s: string, i: nat)
    ensures OccursAt(ToLower(s), "http://", i) <==> LitsAt("http", s, i, true) && LitsAt("://", s, i + 4, true)
  {
    HttpSplit(ToLower(s), i);
    HttpLitsAt(s, i);
    ColonSlashesAt(s, i + 4);
  }

  /** Where the scheme ends, read off the pattern's literals. */
  lemma SchemeLits(s: string, i: nat)
    ensures SchemeEnd(s, i)
            == if LitsAt("http", s, i, true) && i + 4 < |s| && ClassMatches(Lit('s'), s[i + 4], true)
                  && LitsAt("://", s, i + 5, true) then Some(i + 8)
               else if LitsAt("http", s, i, true) && LitsAt("://", s, i + 4, true) then Some(i + 7)
               else None
  {
    HttpsLits(s, i);
    HttpLits(s, i);
  }

  /** An `s` in the text is not the start of `://`. */
  lemma NotBothSAndColon(s: string, k: nat)
    requires k < |s| && ClassMatches(Lit('s'), s[k], true)
    ensures !LitsAt("://", s, k, true)
  {
    if k + 3 <= |s| {
      assert !ClassMatches(Lit("://"[0]), s[k + 0], true);
    }
  }

  /** The link pattern at `i`: `http`, then `s://` and a run when they match, else `://` and a run. */
  lemma UrlItemsCases(s: string, i: nat)
    requires i <= |s|
    ensures Match(UrlPattern.items, s, i, i, true)
            == if !LitsAt("http", s, i, true) then None
               else if i + 4 < |s| && ClassMatches(Lit('s'), s[i + 4], true) && Match(AfterS, s, i + 5, i, true).Some?
               then Match(AfterS, s, i + 5, i, true)
               else Match(AfterS, s, i + 4, i, true)
  {
    UrlItemsMatch(s, i);
    if LitsAt("http", s, i, true) {
      AfterHttpMatch(s, i + 4, i);
    }
  }

  /** The link pattern, tried at `i`, matches exactly a scheme and the whole non-space run after it. */
  predicate MatchesScheme(s: string, i: nat)
    requires i <= |s|
  {
    var m := Match(UrlPattern.items, s, i, i, true);
    (m.Some? <==> UrlStartsAt(s, i))
    && (m.Some? ==> var e := RunEnd(s, SchemeEnd(s, i).value).value; m.value == Span(e, i, e))
  }

  lemma UrlMatchAt(s: string, i: nat)
    requires i <= |s|
    ensures MatchesScheme(s, i)
  {
    UrlItemsCases(s, i);
    SchemeLits(s, i);
    if !LitsAt("http", s, i, true) {
      assert Match(UrlPattern.items, s, i, i, true).None? && SchemeEnd(s, i).None?;
    } else if i + 4 < |s| && ClassMatches(Lit('s'), s[i + 4], true) {
      HttpsMatchAt(s, i);
    } else {
      HttpMatchAt(s, i);
    }
  }

  lemma HttpsMatchAt(s: string, i: nat)
    requires LitsAt("http", s, i, true) && i + 4 < |s| && ClassMatches(Lit('s'), s[i + 4], true)
    ensures MatchesScheme(s, i)
  {
    UrlItemsCases(s, i);
    SchemeLits(s, i);
    NotBothSAndColon(s, i + 4);
    AfterSMatch(s, i + 4, i);
    AfterSMatch(s, i + 5, i);
    assert Match(UrlPattern.items, s, i, i, true) == Match(AfterS, s, i + 5, i, true);
  }

  lemma HttpMatchAt(s: string, i: nat)
    requires LitsAt("http", s, i, true) && !(i + 4 < |s| && ClassMatches(Lit('s'), s[i + 4], true))
    ensures MatchesScheme(s, i)
  {
    UrlItemsCases(s, i);
    SchemeLits(s, i);
    AfterSMatch(s, i + 4, i);
    assert Match(UrlPattern.items, s, i, i, true) == Match(AfterS, s, i + 4, i, true);
  }

  /**
   * No link in the message, exactly when no scheme followed by a non-space
   * character occurs anywhere in it.
   */
  lemma NoUrlIffNoScheme(text: string)
    ensures ExtractUrlAndNotes(text).url.None? <==> forall i :: 0 <= i <= |text| ==> !UrlStartsAt(text, i)
  {
    if Capture(UrlPattern, text).None? {
      forall i | 0 <= i <= |text| ensures !UrlStartsAt(text, i) {
        SearchFirst(UrlPattern, text, 0, i);
        UrlMatchAt(text, i);
      }
    } else {
      var f := SearchAt(UrlPattern, text, 0);
      UrlMatchAt(text, f.start);
    }
  }

  /**
   * The extracted link starts at the leftmost scheme followed by a non-space
   * character and runs to the next whitespace or the end of the message.
   */
  lemma ExtractedUrl(text: string) returns (i: nat, e: nat)
    requires ExtractUrlAndNotes(text).url.Some?
    ensures UrlStartsAt(text, i) && forall j :: 0 <= j < i ==> !UrlStartsAt(text, j)
    ensures SchemeEnd(text, i).value < e <= |text| && ExtractUrlAndNotes(text).url.value == text[i..e]
    ensures forall k :: SchemeEnd(text, i).value <= k < e ==> !IsJsSpace(text[k])
    ensures e == |text| || IsJsSpace(text[e])
  {
    var f := SearchAt(UrlPattern, text, 0);
    i := f.start;
    UrlMatchAt(text, i);
    e := f.end;
    forall j | 0 <= j < i ensures !UrlStartsAt(text, j) {
      SearchFirst(UrlPattern, text, 0, j);
      UrlMatchAt(text, j);
    }
  }

  /** The link's text occurs in the message where the match captured it. */
  lemma UrlOccurs(text: string) returns (i: nat)
    requires ExtractUrlAndNotes(text).url.Some?
    ensures OccursAt(text, ExtractUrlAndNotes(text).url.value, i)
  {
    i := CaptureOccurs(UrlPattern, text);
  }

  /**
   * The notes are the message without the first occurrence of the link's
   * text, trimmed, and None when nothing is left.
   */
  lemma NotesAroundUrl(text: string)
    requires ExtractUrlAndNotes(text).url.Some?
    ensures var r := ExtractUrlAndNotes(text);
      var url := r.url.value;
      IndexOf(text, url).Some?
      && var k := IndexOf(text, url).value;
         var rest := Trim(text[..k] + text[k + |url|..]);
         (r.notes.None? <==> rest == []) && (r.notes.Some? ==> r.notes.value == rest)
  {
    var url := ExtractUrlAndNotes(text).url.value;
    var i := UrlOccurs(text);
    var k := IndexOf(text, url).value;
    assert ReplaceFirst(text, url, "") == text[..k] + text[k + |url|..];
  }

  /** `looksLikeNotes`: a short message that asks nothing and is no keyword. */
  predicate LooksLikeNotes(body: string) {
    var messageText := Trim(body);
    Utf16Length(messageText) < 100 && '?' !in messageText
    && !StartsWith(ToLower(messageText), "help") && !StartsWith(ToLower(messageText), "stop")
  }

  /** New notes: the previous notes, a line break and the trimmed message; just the message when there are none. */
  function AppendNotes(previous: Option<string>, body: string): (r: string)
    ensures previous.Some? && previous.value != [] ==>
      |r| == |previous.value| + 1 + |Trim(body)| && StartsWith(r, previous.value) && r[|previous.value|] == '\n' && r[|previous.value| + 1..] == Trim(body)
    ensures (previous.None? || previous.value == []) ==> r == Trim(body)
  {
    if previous.Some? && previous.value != [] then previous.value + "\n" + Trim(body) else Trim(body)
  }

  /** Appending notes loses nothing: the previous notes are the lines before the last one. */
  lemma AppendNotesLines(previous: string, body: string)
    requires previous != [] && '\n' !in Trim(body)
    ensures Split(AppendNotes(Some(previous), body), '\n') == Split(previous, '\n') + [Trim(body)]
  {
    var r := AppendNotes(Some(previous), body);
    assert r == previous + ['\n'] + Trim(body);
    SplitAppend(previous, Trim(body), '\n');
  }

  // ---------------------------------------------------------------------------
  // The handler

  /** The sender's most recent item in the default list, as the notes branch reads it. */
  datatype LastItem = LastItem(id: string, title: string, notes: Option<string>, createdAt: int)

  /** The sender's account and the id of its default list, if any. */
  datatype Account = Account(id: string, displayName: string, defaultListId: Option<string>)

  datatype NewItem = NewItem(listId: string, url: string, title: string, siteName: Option<string>,
                             imageUrl: Option<string>, price: Option<string>, notes: Option<string>)

  /** The database writes and outgoing texts, in the order the handler issues them. */
  datatype Effect =
    | UpdateNotes(itemId: string, notes: string)
    | CreateUser(phoneNumber: string)
    | CreateList(userId: string)
    | CreateItem(item: NewItem)
    | SendSms(to: string, text: string)

  /**
   * The database as the handler reads it: the last item and the account of a
   * phone number, the title of an item of a list with a given URL, and the
   * ids the database assigns to a new user and a new list.
   */
  datatype Store = Store(lastItemOf: string -> Option<LastItem>,
                         accountOf: string -> Option<Account>,
                         existingTitle: (string, string) -> Option<string>,
                         newUserId: string, newListId: string)

  /** The HTTP status, whether the handler paused before reading, and the effects. */
  datatype Outcome = Outcome(status: int, paused: bool, effects: seq<Effect>)

  const FiveMinutes := 5 * 60 * 1000

  const HelpReply := "To add an item to your wishlist, text me a link to the product. "
                     + "Example: https://amazon.com/dp/..."

  /** `process.env.NEXT_PUBLIC_APP_URL || "https://your-app.vercel.app"` */
  function AppUrl(env: Option<string>): (r: string)
    ensures r != []
    ensures Present(env) ==> r == env.value
  {
    if Present(env) then env.value else "https://your-app.vercel.app"
  }

  /** The confirmation text, with the site and the setup hint appended when they apply. */
  function AddedReply(title: string, siteName: Option<string>, isNewUser: bool, appUrl: string): string {
    var head := "Added to your wishlist: \"" + title + "\"";
    var site := if Present(siteName) then " from " + siteName.value else "";
    var hint := if isNewUser then "\n\nNew here? Set up your account at " + appUrl
                                  + " to share your list with family and friends!" else "";
    head + site + hint
  }

  /**
   * The reply opens with the quoted title; ` from <site>` follows it only
   * with a site name; it closes with the setup hint for a new user. Its
   * length leaves room for nothing else.
   */
  lemma AddedReplyParts(title: string, siteName: Option<string>, isNewUser: bool, appUrl: string)
    ensures var r := AddedReply(title, siteName, isNewUser, appUrl);
      StartsWith(r, "Added to your wishlist: \"" + title + "\"")
      && (Present(siteName) ==> StartsWith(r[|"Added to your wishlist: \"" + title + "\""|..], " from " + siteName.value))
      && (isNewUser ==> EndsWith(r, "\n\nNew here? Set up your account at " + appUrl
                                    + " to share your list with family and friends!"))
      && (!isNewUser ==> EndsWith(r, "\"" + (if Present(siteName) then " from " + siteName.value else "")))
      && (!Present(siteName) && !isNewUser ==> r == "Added to your wishlist: \"" + title + "\"")
      && |r| == |"Added to your wishlist: \"" + title + "\""|
                + (if Present(siteName) then |" from " + siteName.value| else 0)
                + (if isNewUser then |"\n\nNew here? Set up your account at " + appUrl
                                     + " to share your list with family and friends!"| else 0)
  {
    var head := "Added to your wishlist: \"" + title + "\"";
    var site := if Present(siteName) then " from " + siteName.value else "";
    var hint := if isNewUser then "\n\nNew here? Set up your account at " + appUrl
                                  + " to share your list with family and friends!" else "";
    ThreeParts(head, site, hint);
  }

  /** Where each of three concatenated parts sits in the whole. */
  lemma ThreeParts(head: string, site: string, hint: string)
    ensures StartsWith(head + site + hint, head)
    ensures StartsWith((head + site + hint)[|head|..], site)
    ensures EndsWith(head + site + hint, hint)
    ensures head != [] ==> EndsWith(head + site, head[|head| - 1..] + site)
    ensures |head + site + hint| == |head| + |site| + |hint|
  {
    assert (head + site + hint)[|head|..] == site + hint;
    if head != [] {
      assert (head + site)[|head| - 1..] == head[|head| - 1..] + site;
    }
  }

  /** `metadata.title || "Untitled Item"` */
  function ItemTitle(m: Metadata): (r: string)
    ensures r != []
    ensures Present(m.title) ==> r == m.title.value
  {
    if Present(m.title) then m.title.value else "Untitled Item"
  }

  /** A message without a link: notes for a recent item, else the help text. */
  function NotesOutcome(from: string, body: string, now: int, store: Store): Outcome {
    var lastItem := store.lastItemOf(from);
    if lastItem.Some? && lastItem.value.createdAt > now - FiveMinutes then
      var item := lastItem.value;
      Outcome(200, LooksLikeNotes(body),
              [UpdateNotes(item.id, AppendNotes(item.notes, body)),
               SendSms(from, "Got it! Added notes to \"" + item.title + "\": " + Trim(body))])
    else
      Outcome(200, LooksLikeNotes(body), [SendSms(from, HelpReply)])
  }

  /** The account creations a linked message needs, and the user and default list it then has. */
  function AccountSetup(from: string, store: Store): (r: (seq<Effect>, string, string))
    ensures |r.0| <= 1
  {
    match store.accountOf(from)
    case None => ([CreateUser(from)], "", store.newListId)
    case Some(user) =>
      match user.defaultListId
      case Some(listId) => ([], user.displayName, listId)
      case None => ([CreateList(user.id)], user.displayName, store.newListId)
  }

  /** A message with a link: a duplicate is reported, anything else added with its metadata. */
  function LinkOutcome(from: string, url: string, notes: Option<string>, store: Store,
                       appUrl: Option<string>, metadata: Metadata): Outcome {
    var (setup, displayName, listId) := AccountSetup(from, store);
    match store.existingTitle(listId, url)
    case Some(t) =>
      Outcome(200, false, setup + [SendSms(from, "That item is already on your wishlist: \"" + t + "\"")])
    case None =>
      var title := ItemTitle(metadata);
      Outcome(200, false, setup + [
        CreateItem(NewItem(listId, metadata.url, title, metadata.siteName, metadata.imageUrl, metadata.price, notes)),
        SendSms(from, AddedReply(title, metadata.siteName, displayName == "", AppUrl(appUrl)))])
  }

  /**
   * The handler as a value, over the metadata lookup it makes for a new link
   * (`fetchUrlMetadata`, given by `InboundSms` as `MetadataOf` in its world).
   */
  function InboundOf(from: Option<string>, body: Option<string>, now: int, store: Store,
                     appUrl: Option<string>, fetchMeta: string -> Metadata): Outcome {
    if !Present(from) || !Present(body) then Outcome(400, false, [])
    else
      var parsed := ExtractUrlAndNotes(body.value);
      match parsed.url
      case None => NotesOutcome(from.value, body.value, now, store)
      case Some(url) => LinkOutcome(from.value, url, parsed.notes, store, appUrl, fetchMeta(url))
  }

  /** `POST /api/sms/inbound`, reassigning the user's list and the reply as the source does. */
  method InboundSms(from: Option<string>, body: Option<string>, now: int, store: Store,
                    appUrl: Option<string>, w: World) returns (out: Outcome)
    ensures out == InboundOf(from, body, now, store, appUrl, url => MetadataOf(url, w))
  {
    if !Present(from) || !Present(body) {
      return Outcome(400, false, []);
    }
    var parsed := ExtractUrlAndNotes(body.value);
    if parsed.url.None? {
      return NotesOutcome(from.value, body.value, now, store);
    }
    out := AddLink(from.value, parsed.url.value, parsed.notes, store, appUrl, w);
  }

  /** Looks up or creates the sender's account and default list. */
  method SetUpAccount(sender: string, store: Store) returns (effects: seq<Effect>, displayName: string, listId: string)
    ensures effects == AccountSetup(sender, store).0
    ensures displayName == AccountSetup(sender, store).1
    ensures listId == AccountSetup(sender, store).2
  {
    effects := [];
    displayName := "";
    var defaultList: Option<string> := None;
    var user := store.accountOf(sender);
    if user.Some? {
      displayName := user.value.displayName;
      defaultList := user.value.defaultListId;
    } else {
      effects := effects + [CreateUser(sender)];
      defaultList := Some(store.newListId);
    }
    if defaultList.None? {
      effects := effects + [CreateList(user.value.id)];
      defaultList := Some(store.newListId);
    }
    listId := defaultList.value;
  }

  /** Builds the confirmation text piece by piece, as the source does. */
  method ConfirmationText(title: string, siteName: Option<string>, isNewUser: bool, appUrl: string)
    returns (replyMessage: string)
    ensures replyMessage == AddedReply(title, siteName, isNewUser, appUrl)
  {
    replyMessage := "Added to your wishlist: \"" + title + "\"";
    ghost var head := replyMessage;
    if Present(siteName) {
      replyMessage := replyMessage + " from " + siteName.value;
    }
    assert replyMessage == head + if Present(siteName) then " from " + siteName.value else "";
    ghost var withSite := replyMessage;
    if isNewUser {
      replyMessage := replyMessage + "\n\nNew here? Set up your account at " + appUrl
                      + " to share your list with family and friends!";
    }
    assert replyMessage == withSite + if isNewUser then "\n\nNew here? Set up your account at " + appUrl
                                        + " to share your list with family and friends!" else "";
  }

  /** The linked-message branch: duplicate check, metadata, new item and confirmation. */
  method AddLink(sender: string, url: string, notes: Option<string>, store: Store,
                 appUrl: Option<string>, w: World) returns (out: Outcome)
    ensures out == LinkOutcome(sender, url, notes, store, appUrl, MetadataOf(url, w))
  {
    var effects, displayName, listId := SetUpAccount(sender, store);
    var existingItem := store.existingTitle(listId, url);
    if existingItem.Some? {
      return Outcome(200, false, effects + [SendSms(sender, "That item is already on your wishlist: \""
                                                            + existingItem.value + "\"")]);
    }
    var metadata := FetchUrlMetadata(url, w);
    out := AddItem(sender, url, notes, store, appUrl, metadata, effects, displayName, listId);
  }

  /** The rest of the linked-message branch once the metadata is in: the new item and the confirmation. */
  method AddItem(sender: string, url: string, notes: Option<string>, store: Store, appUrl: Option<string>,
                 metadata: Metadata, effects0: seq<Effect>, displayName: string, listId: string)
    returns (out: Outcome)
    requires (effects0, displayName, listId) == AccountSetup(sender, store)
    requires store.existingTitle(listId, url).None?
    ensures out == LinkOutcome(sender, url, notes, store, appUrl, metadata)
  {
    var title := if Present(metadata.title) then metadata.title.value else "Untitled Item";
    assert title == ItemTitle(metadata);
    var effects := effects0 + [CreateItem(NewItem(listId, metadata.url, title, metadata.siteName,
                                                  metadata.imageUrl, metadata.price, notes))];
    var replyMessage := ConfirmationText(title, metadata.siteName, displayName == "", AppUrl(appUrl));
    effects := effects + [SendSms(sender, replyMessage)];
    return Outcome(200, false, effects);
  }

  // ---------------------------------------------------------------------------
  // What the handler guarantees

  /** A missing or empty sender or body is rejected with 400 before anything is read or written. */
  lemma MissingFieldsRejected(from: Option<string>, body: Option<string>, now: int, store: Store,
                              appUrl: Option<string>, fetchMeta: string -> Metadata)
    ensures var out := InboundOf(from, body, now, store, appUrl, fetchMeta);
      (out.status == 400 <==> !Present(from) || !Present(body))
      && (out.status == 400 ==> out.effects == [] && !out.paused)
      && (out.status != 400 ==> out.status == 200)
  {
  }

  /**
   * Every accepted message is answered with exactly one text, to its sender,
   * as the last effect.
   */
  lemma OneReplyToSender(from: Option<string>, body: Option<string>, now: int, store: Store,
                         appUrl: Option<string>, fetchMeta: string -> Metadata)
    requires Present(from) && Present(body)
    ensures RepliesOnceTo(InboundOf(from, body, now, store, appUrl, fetchMeta), from.value)
  {
    var parsed := ExtractUrlAndNotes(body.value);
    if parsed.url.Some? {
      LinkedMessage(from.value, body.value, now, store, appUrl, fetchMeta);
      LinkReply(from.value, parsed.url.value, parsed.notes, store, appUrl, fetchMeta(parsed.url.value));
    } else {
      UnlinkedMessage(from.value, body.value, now, store, appUrl, fetchMeta);
      NotesReply(from.value, body.value, now, store);
    }
  }

  /** The last effect, and only it, is a text to `to`. */
  predicate RepliesOnceTo(out: Outcome, to: string) {
    |out.effects| >= 1 && out.effects[|out.effects| - 1].SendSms?
    && out.effects[|out.effects| - 1].to == to
    && forall k :: 0 <= k < |out.effects| - 1 ==> !out.effects[k].SendSms?
  }

  lemma LinkReply(from: string, url: string, notes: Option<string>, store: Store, appUrl: Option<string>, m: Metadata)
    ensures RepliesOnceTo(LinkOutcome(from, url, notes, store, appUrl, m), from)
  {
    var (setup, displayName, listId) := AccountSetup(from, store);
    assert forall e :: e in setup ==> !e.SendSms?;
  }

  lemma NotesReply(from: string, body: string, now: int, store: Store)
    ensures RepliesOnceTo(NotesOutcome(from, body, now, store), from)
  {
  }

  /**
   * Notes are written exactly when the message has no link and the sender's
   * last item was created less than five minutes ago; they are the old notes
   * and the trimmed message.
   */
  lemma NotesOnlyForRecentItem(from: Option<string>, body: Option<string>, now: int, store: Store,
                               appUrl: Option<string>, fetchMeta: string -> Metadata)
    requires Present(from) && Present(body)
    ensures var out := InboundOf(from, body, now, store, appUrl, fetchMeta);
      var last := store.lastItemOf(from.value);
      (out.effects[0].UpdateNotes? <==>
         ExtractUrlAndNotes(body.value).url.None? && last.Some? && last.value.createdAt > now - FiveMinutes)
      && (out.effects[0].UpdateNotes? ==>
            out.effects[0] == UpdateNotes(last.value.id, AppendNotes(last.value.notes, body.value)))
  {
    if ExtractUrlAndNotes(body.value).url.Some? {
      LinkedMessage(from.value, body.value, now, store, appUrl, fetchMeta);
      LinkNeverNotes(from.value, ExtractUrlAndNotes(body.value).url.value, ExtractUrlAndNotes(body.value).notes,
                     store, appUrl, fetchMeta(ExtractUrlAndNotes(body.value).url.value));
    } else {
      UnlinkedMessage(from.value, body.value, now, store, appUrl, fetchMeta);
    }
  }

  lemma LinkNeverNotes(from: string, url: string, notes: Option<string>, store: Store, appUrl: Option<string>,
                       m: Metadata)
    ensures var out := LinkOutcome(from, url, notes, store, appUrl, m);
      |out.effects| >= 1 && !out.effects[0].UpdateNotes?
  {
  }

  /** The pause before reading is taken only for a message without a link that looks like notes. */
  lemma PauseOnlyForNotes(from: Option<string>, body: Option<string>, now: int, store: Store,
                          appUrl: Option<string>, fetchMeta: string -> Metadata)
    ensures InboundOf(from, body, now, store, appUrl, fetchMeta).paused <==>
      Present(from) && Present(body) && ExtractUrlAndNotes(body.value).url.None? && LooksLikeNotes(body.value)
  {
  }

  /** A link already in the default list (by the URL as texted) adds nothing. */
  lemma DuplicateNotAdded(from: string, body: string, now: int, store: Store, appUrl: Option<string>,
                    fetchMeta: string -> Metadata)
    requires from != [] && body != [] && ExtractUrlAndNotes(body).url.Some?
    requires store.existingTitle(AccountSetup(from, store).2, ExtractUrlAndNotes(body).url.value).Some?
    ensures forall e :: e in InboundOf(Some(from), Some(body), now, store, appUrl, fetchMeta).effects ==> !e.CreateItem?
  {
    LinkedMessage(from, body, now, store, appUrl, fetchMeta);
  }

  /**
   * The next-to-last effect creates the item: under the metadata's URL, with
   * a non-empty title (the metadata's when it has one), the notes and the list.
   */
  predicate AddsItem(out: Outcome, m: Metadata, notes: Option<string>, listId: string) {
    |out.effects| >= 2 && out.effects[|out.effects| - 2].CreateItem?
    && var item := out.effects[|out.effects| - 2].item;
       item.url == m.url && item.title != [] && (Present(m.title) ==> item.title == m.title.value)
       && item.notes == notes && item.listId == listId
  }

  /**
   * A new link is stored under the URL the metadata reports (the affiliate
   * URL for Amazon), with a non-empty title and the message's notes.
   */
  lemma LinkAdded(from: string, body: string, now: int, store: Store, appUrl: Option<string>,
                    fetchMeta: string -> Metadata,
                  url: string, notes: Option<string>)
    requires from != [] && body != [] && ExtractUrlAndNotes(body) == UrlAndNotes(Some(url), notes)
    requires store.existingTitle(AccountSetup(from, store).2, url).None?
    ensures AddsItem(InboundOf(Some(from), Some(body), now, store, appUrl, fetchMeta), fetchMeta(url), notes,
                     AccountSetup(from, store).2)
  {
    LinkedMessage(from, body, now, store, appUrl, fetchMeta);
    NewItemOf(from, url, notes, store, appUrl, fetchMeta(url));
  }

  /** A message without a link is handled by the notes branch. */
  lemma UnlinkedMessage(from: string, body: string, now: int, store: Store, appUrl: Option<string>,
                    fetchMeta: string -> Metadata)
    requires from != [] && body != [] && ExtractUrlAndNotes(body).url.None?
    ensures InboundOf(Some(from), Some(body), now, store, appUrl, fetchMeta) == NotesOutcome(from, body, now, store)
  {
  }

  /** A message with a link is handled by the link branch. */
  lemma LinkedMessage(from: string, body: string, now: int, store: Store, appUrl: Option<string>,
                    fetchMeta: string -> Metadata)
    requires from != [] && body != [] && ExtractUrlAndNotes(body).url.Some?
    ensures InboundOf(Some(from), Some(body), now, store, appUrl, fetchMeta)
            == LinkOutcome(from, ExtractUrlAndNotes(body).url.value, ExtractUrlAndNotes(body).notes, store, appUrl,
                           fetchMeta(ExtractUrlAndNotes(body).url.value))
  {
  }

  lemma NewItemOf(from: string, url: string, notes: Option<string>, store: Store, appUrl: Option<string>, m: Metadata)
    requires store.existingTitle(AccountSetup(from, store).2, url).None?
    ensures AddsItem(LinkOutcome(from, url, notes, store, appUrl, m), m, notes, AccountSetup(from, store).2)
  {
  }

  /** An unknown sender gets an account with an empty display name, and so the setup hint. */
  lemma NewSenderGetsAccount(from: string, store: Store)
    requires store.accountOf(from).None?
    ensures AccountSetup(from, store) == ([CreateUser(from)], "", store.newListId)
  {
  }
}
