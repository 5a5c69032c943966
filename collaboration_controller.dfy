/** The collaboration handlers: sharing an upload with another user, share
    links, revoking shares, and team workspaces, all kept as arrays embedded in
    the owner's User document. The document found by id is passed as `u`
    (null when the lookup finds nothing); random ids and the clock are
    parameters. */
module CollaborationController {
  import opened Js
  import opened Http
  import opened UserDocument

  const DayMs: int := 24 * 60 * 60 * 1000
  /** A share record expires 30 days after it is made. */
  const ShareLifetimeMs: int := 30 * DayMs
  /** A share link expires 7 days after it is made. */
  const LinkLifetimeMs: int := 7 * DayMs

  datatype ShareReceipt = ShareReceipt(
    shareId: string, recipientEmail: string, permissions: Option<string>, expiresAt: int)

  /** The record a successful share appends. The recipient e-mail stored is
      the one found in the directory, that is, the lower-cased input. */
  function ShareRecordFor(
    ownerId: string, shareId: string, itemId: string, itemType: string, recipientId: string,
    recipientEmail: string, message: Option<string>, permissions: Option<string>, now: int): (r: ShareRecord)
    ensures r.permissions == (if Given(permissions) then permissions.value else "view")
    ensures r.expiresAt - r.sharedAt == ShareLifetimeMs
    ensures r.id == shareId && r.itemId == itemId && r.ownerId == ownerId
  {
    ShareRecord(shareId, itemId, itemType, ownerId, recipientId, recipientEmail, message,
                if Given(permissions) then permissions.value else "view", now, now + ShareLifetimeMs)
  }

  /** shareItem. `directory` maps each registered (lower-case) e-mail to its
      user id. The checks run in order: required fields, recipient, ownership
      of the item; only when all pass is exactly one record appended. */
  method ShareItem(
    u: UserDoc?, directory: map<string, string>,
    itemId: Option<string>, itemType: Option<string>, recipientEmail: Option<string>,
    message: Option<string>, permissions: Option<string>, shareId: string, now: int)
    returns (r: Reply<ShareReceipt>)
    requires u != null ==> u.Valid()
    modifies u
    ensures u != null ==> u.Valid()
    ensures !(Given(itemId) && Given(itemType) && Given(recipientEmail))
            ==> r == Err(400, "Missing required fields")
    ensures Given(itemId) && Given(itemType) && Given(recipientEmail) ==>
            var key := Lower(recipientEmail.value);
            if key !in directory then r == Err(404, "Recipient user not found")
            else if u == null then r == Err(500, "Failed to share item")
            else if !HasUpload(old(u.uploadHistory), itemId.value) then r == Err(404, "Item not found in your uploads")
            else
              var record := ShareRecordFor(u.id, shareId, itemId.value, itemType.value, directory[key],
                                           key, message, permissions, now);
              && r == Ok(200, "Item shared successfully",
                         ShareReceipt(shareId, recipientEmail.value, permissions, record.expiresAt))
              && u.sharedItems == old(u.sharedItems) + [record]
    ensures u != null && r.Err? ==> u.sharedItems == old(u.sharedItems)
    ensures u != null ==> u.uploadHistory == old(u.uploadHistory) && u.shareLinks == old(u.shareLinks)
                          && u.teams == old(u.teams)
  {
    if !Given(itemId) || !Given(itemType) || !Given(recipientEmail) {
      return Err(400, "Missing required fields");
    }
    var key := Lower(recipientEmail.value);
    if key !in directory {
      return Err(404, "Recipient user not found");
    }
    if u == null {
      // `user.uploadHistory` on a missing document throws
      return Err(500, "Failed to share item");
    }
    if !HasUpload(u.uploadHistory, itemId.value) {
      return Err(404, "Item not found in your uploads");
    }
    var record := ShareRecordFor(u.id, shareId, itemId.value, itemType.value, directory[key],
                                 key, message, permissions, now);
    u.sharedItems := u.sharedItems + [record];
    r := Ok(200, "Item shared successfully",
            ShareReceipt(shareId, recipientEmail.value, permissions, record.expiresAt));
  }

  datatype SharedEntry = SharedEntry(record: ShareRecord, kind: string, itemName: string)

  /** getItemName: the original name of the first upload stored under
      `itemId`, or 'Unknown Item'. */
  function GetItemName(itemId: string, history: seq<UploadEntry>): (name: string)
    ensures HasUpload(history, itemId) ==> name == FindUpload(history, itemId).value.originalName
    ensures !HasUpload(history, itemId) ==> name == "Unknown Item"
  {
    match FindUpload(history, itemId)
    case Some(e) => e.originalName
    case None => "Unknown Item"
  }

  /** getSharedItems: every record this user shared, in stored order, tagged
      'shared_by_me' and named after its upload (nothing is ever shared with
      the user in this design). */
  function GetSharedItems(sharedItems: seq<ShareRecord>, history: seq<UploadEntry>): (r: seq<SharedEntry>)
    ensures |r| == |sharedItems|
    ensures forall i | 0 <= i < |r| ::
              r[i].record == sharedItems[i] && r[i].kind == "shared_by_me"
              && r[i].itemName == GetItemName(sharedItems[i].itemId, history)
  {
    seq(|sharedItems|, i requires 0 <= i < |sharedItems| =>
      SharedEntry(sharedItems[i], "shared_by_me", GetItemName(sharedItems[i].itemId, history)))
  }

  /** In a valid document every shared record is named after the upload it
      shares, never given the 'Unknown Item' fallback. */
  lemma SharedItemsNamed(u: UserDoc, i: nat)
    requires u.Valid() && i < |u.sharedItems|
    ensures FindUpload(u.uploadHistory, u.sharedItems[i].itemId).Some?
    ensures GetSharedItems(u.sharedItems, u.uploadHistory)[i].itemName
            == FindUpload(u.uploadHistory, u.sharedItems[i].itemId).value.originalName
  {
    assert u.sharedItems[i] in u.sharedItems;
  }

  datatype LinkReceipt = LinkReceipt(link: string, expiresAt: int, token: string)

  /** generateShareLink. `frontendUrl` is the FRONTEND_URL setting; when it
      is unset the template writes "undefined". */
  method GenerateShareLink(
    u: UserDoc?, itemId: Option<string>, itemType: Option<string>, token: string, now: int,
    frontendUrl: Option<string>)
    returns (r: Reply<LinkReceipt>)
    requires u != null ==> u.Valid()
    modifies u
    ensures u != null ==> u.Valid()
    ensures !(Given(itemId) && Given(itemType)) ==> r == Err(400, "Missing required fields")
    ensures Given(itemId) && Given(itemType) ==>
            if u == null then r == Err(500, "Failed to generate shareable link")
            else if !HasUpload(old(u.uploadHistory), itemId.value) then r == Err(404, "Item not found in your uploads")
            else
              var base := if frontendUrl.Some? then frontendUrl.value else "undefined";
              && r == Ok(200, "Shareable link generated",
                         LinkReceipt(base + "/shared/" + token, now + LinkLifetimeMs, token))
              && u.shareLinks == old(u.shareLinks)
                                 + [ShareLink(token, itemId.value, itemType.value, u.id, now + LinkLifetimeMs, now)]
    ensures u != null && r.Err? ==> u.shareLinks == old(u.shareLinks)
    ensures u != null ==> u.uploadHistory == old(u.uploadHistory) && u.sharedItems == old(u.sharedItems)
                          && u.teams == old(u.teams)
  {
    if !Given(itemId) || !Given(itemType) {
      return Err(400, "Missing required fields");
    }
    if u == null {
      return Err(500, "Failed to generate shareable link");
    }
    if !HasUpload(u.uploadHistory, itemId.value) {
      return Err(404, "Item not found in your uploads");
    }
    var expiresAt := now + LinkLifetimeMs;
    u.shareLinks := u.shareLinks + [ShareLink(token, itemId.value, itemType.value, u.id, expiresAt, now)];
    var base := if frontendUrl.Some? then frontendUrl.value else "undefined";
    r := Ok(200, "Shareable link generated", LinkReceipt(base + "/shared/" + token, expiresAt, token));
  }

  /** The records that survive revoking `shareId`. */
  function WithoutShare(items: seq<ShareRecord>, shareId: string): (r: seq<ShareRecord>)
    ensures |r| <= |items|
    ensures forall x | x in r :: x in items && x.id != shareId
  {
    FilterSubset(items, (item: ShareRecord) => item.id != shareId);
    Filter(items, (item: ShareRecord) => item.id != shareId)
  }

  /** revokeAccess removes every record with that id and keeps the rest in
      order; it succeeds whether or not anything matched. */
  method RevokeAccess(u: UserDoc?, shareId: string) returns (r: Reply<()>)
    requires u != null ==> u.Valid()
    modifies u
    ensures u != null ==> u.Valid()
    ensures u == null ==> r == Err(404, "User not found")
    ensures u != null ==> r == Ok(200, "Access revoked successfully", ())
    ensures u != null ==> u.sharedItems == WithoutShare(old(u.sharedItems), shareId)
    ensures u != null ==> u.uploadHistory == old(u.uploadHistory) && u.shareLinks == old(u.shareLinks)
                          && u.teams == old(u.teams)
  {
    if u == null {
      return Err(404, "User not found");
    }
    forall x | x in WithoutShare(u.sharedItems, shareId) ensures x in u.sharedItems {
      FilterMembership(u.sharedItems, (item: ShareRecord) => item.id != shareId, x);
    }
    u.sharedItems := WithoutShare(u.sharedItems, shareId);
    r := Ok(200, "Access revoked successfully", ());
  }

  /** After a revoke no record carries the revoked id, every other record is
      still there and in its order, and revoking again changes nothing. */
  lemma RevokeProperties(items: seq<ShareRecord>, shareId: string)
    ensures forall x | x in WithoutShare(items, shareId) :: x.id != shareId
    ensures forall x | x in items && x.id != shareId :: x in WithoutShare(items, shareId)
    ensures WithoutShare(WithoutShare(items, shareId), shareId) == WithoutShare(items, shareId)
    ensures (forall i | 0 <= i < |items| :: items[i].id != shareId) ==> WithoutShare(items, shareId) == items
    ensures forall front, back | items == front + back ::
              WithoutShare(items, shareId) == WithoutShare(front, shareId) + WithoutShare(back, shareId)
  {
    var p := (item: ShareRecord) => item.id != shareId;
    // the survivors keep their order: a revoke distributes over concatenation
    forall front, back | items == front + back
      ensures WithoutShare(items, shareId) == WithoutShare(front, shareId) + WithoutShare(back, shareId)
    {
      FilterConcat(front, back, p);
    }
    forall x | x in WithoutShare(items, shareId) ensures x.id != shareId {
      FilterMembership(items, p, x);
    }
    forall x | x in items && x.id != shareId ensures x in WithoutShare(items, shareId) {
      FilterMembership(items, p, x);
    }
    FilterIdempotent(items, p);
    if forall i | 0 <= i < |items| :: items[i].id != shareId {
      FilterKeepsAll(items, p);
    }
  }

  datatype TeamCreated = TeamCreated(teamId: string, name: string, description: string, memberCount: nat)

  /** createTeam. `members` is None when the request gives no (truthy)
      member list; the list then defaults to the owner's e-mail. A given list,
      even an empty one, is kept as it is. */
  method CreateTeam(
    u: UserDoc?, name: Option<string>, description: Option<string>, members: Option<seq<string>>,
    teamId: string, now: int)
    returns (r: Reply<TeamCreated>)
    requires u != null ==> u.Valid()
    modifies u
    ensures u != null ==> u.Valid()
    ensures !(Given(name) && Given(description)) ==> r == Err(400, "Team name and description are required")
    ensures Given(name) && Given(description) && u == null ==> r == Err(404, "User not found")
    ensures Given(name) && Given(description) && u != null ==>
            var m := if members.Some? then members.value else [u.email];
            && u.teams == old(u.teams) + [Team(teamId, name.value, description.value, u.id, m, now, now)]
            && r == Ok(200, "Team created successfully", TeamCreated(teamId, name.value, description.value, |m|))
    ensures u != null && r.Err? ==> u.teams == old(u.teams)
    ensures u != null ==> u.uploadHistory == old(u.uploadHistory) && u.sharedItems == old(u.sharedItems)
                          && u.shareLinks == old(u.shareLinks)
  {
    if !Given(name) || !Given(description) {
      return Err(400, "Team name and description are required");
    }
    if u == null {
      return Err(404, "User not found");
    }
    var m := if members.Some? then members.value else [u.email];
    u.teams := u.teams + [Team(teamId, name.value, description.value, u.id, m, now, now)];
    r := Ok(200, "Team created successfully", TeamCreated(teamId, name.value, description.value, |m|));
  }

  datatype TeamSummary = TeamSummary(id: string, name: string, description: string, memberCount: nat, createdAt: int)

  /** getTeams: one summary per team, in stored order. */
  function GetTeams(teams: seq<Team>): (r: seq<TeamSummary>)
    ensures |r| == |teams|
    ensures forall i | 0 <= i < |r| ::
              r[i].id == teams[i].id && r[i].memberCount == |teams[i].members|
              && r[i].name == teams[i].name && r[i].description == teams[i].description
              && r[i].createdAt == teams[i].createdAt
  {
    seq(|teams|, i requires 0 <= i < |teams| =>
      TeamSummary(teams[i].id, teams[i].name, teams[i].description, |teams[i].members|, teams[i].createdAt))
  }

  datatype Invitation = Invitation(teamId: string, email: string, memberCount: nat)

  predicate IsTeam(t: Team, teamId: string)
  {
    t.id == teamId
  }

  /** inviteToTeam. Checks in order: e-mail given, user, team, ownership,
      membership; on success the e-mail is appended once to the first team
      with that id and the team's `updatedAt` is set. */
  method InviteToTeam(u: UserDoc?, teamId: string, email: Option<string>, now: int)
    returns (r: Reply<Invitation>)
    requires u != null ==> u.Valid()
    modifies u
    ensures u != null ==> u.Valid()
    ensures !Given(email) ==> r == Err(400, "Email is required")
    ensures Given(email) && u == null ==> r == Err(404, "User not found")
    ensures Given(email) && u != null ==>
            match FindIndex(old(u.teams), (t: Team) => IsTeam(t, teamId))
            case None => r == Err(404, "Team not found") && u.teams == old(u.teams)
            case Some(k) =>
              var team := old(u.teams)[k];
              if team.ownerId != u.id then r == Err(403, "Only team owner can invite members")
              else if email.value in team.members then
                r == Err(400, "User is already a team member") && u.teams == old(u.teams)
              else
                && u.teams == old(u.teams)[k := team.(members := team.members + [email.value], updatedAt := now)]
                && r == Ok(200, "Invitation sent successfully",
                           Invitation(teamId, email.value, |team.members| + 1))
    // a document whose teams were all made by createTeam never meets the owner check
    ensures r.status != 403
    ensures u != null && r.Err? ==> u.teams == old(u.teams)
    ensures u != null ==> u.uploadHistory == old(u.uploadHistory) && u.sharedItems == old(u.sharedItems)
                          && u.shareLinks == old(u.shareLinks)
  {
    if !Given(email) {
      return Err(400, "Email is required");
    }
    if u == null {
      return Err(404, "User not found");
    }
    var found := FindIndex(u.teams, (t: Team) => IsTeam(t, teamId));
    if found.None? {
      return Err(404, "Team not found");
    }
    var k := found.value;
    var team := u.teams[k];
    assert team in u.teams;
    if team.ownerId != u.id {
      // the source answers 403 'Only team owner can invite members' here; in a
      // valid document every team has this owner, so the branch is dead
      assert false;
    }
    if email.value in team.members {
      return Err(400, "User is already a team member");
    }
    var grown := team.(members := team.members + [email.value], updatedAt := now);
    u.teams := u.teams[k := grown];
    r := Ok(200, "Invitation sent successfully", Invitation(teamId, email.value, |grown.members|));
  }

  /** An invitation never introduces a duplicate member: a team whose member
      list has no repeats keeps that property. */
  lemma InviteKeepsMembersDistinct(members: seq<string>, email: string)
    requires forall i, j | 0 <= i < j < |members| :: members[i] != members[j]
    requires email !in members
    ensures var grown := members + [email];
            forall i, j | 0 <= i < j < |grown| :: grown[i] != grown[j]
  {
  }

  /** What getSharedItem can see of a user document. */
  datatype OwnerView = OwnerView(username: string, shareLinks: seq<ShareLink>, uploadHistory: seq<UploadEntry>)

  datatype SharedItem = SharedItem(item: UploadEntry, sharedBy: string, expiresAt: int)

  predicate HoldsToken(v: OwnerView, token: string)
  {
    exists i | 0 <= i < |v.shareLinks| :: v.shareLinks[i].token == token
  }

  /** `i` is the document `findOne({'shareLinks.token': token})` returns:
      the first one holding a link with that token. */
  predicate FirstHolder(users: seq<OwnerView>, token: string, i: int)
  {
    0 <= i < |users| && HoldsToken(users[i], token)
    && forall k | 0 <= k < i :: !HoldsToken(users[k], token)
  }

  /** `j` is the link `shareLinks.find(link => link.token === token)` returns. */
  predicate FirstLink(links: seq<ShareLink>, token: string, j: int)
  {
    0 <= j < |links| && links[j].token == token
    && forall m | 0 <= m < j :: links[m].token != token
  }

  /** `findOne` picks one document: there is only one first holder. */
  lemma FirstHolderUnique(users: seq<OwnerView>, token: string, i: int)
    requires FirstHolder(users, token, i)
    ensures forall k | FirstHolder(users, token, k) :: k == i
  {
  }

  /** `find` picks one link: there is only one first matching link. */
  lemma FirstLinkUnique(links: seq<ShareLink>, token: string, j: int)
    requires FirstLink(links, token, j)
    ensures forall m | FirstLink(links, token, m) :: m == j
  {
  }

  /** The index `shareLinks.find(link => link.token === token)` stops at, in
      a document known to hold the token. */
  function FirstLinkIndex(links: seq<ShareLink>, token: string): (j: nat)
    requires exists m | 0 <= m < |links| :: links[m].token == token
    ensures FirstLink(links, token, j)
  {
    if links[0].token == token then 0
    else
      assert exists m | 0 <= m < |links[1..]| :: links[1..][m].token == token by {
        var m :| 0 <= m < |links| && links[m].token == token;
        assert links[1..][m - 1] == links[m];
      }
      1 + FirstLinkIndex(links[1..], token)
  }

  /** What getSharedItem answers once it has the document and its link: the
      expiry check, then the upload lookup. */
  function OpenLink(owner: OwnerView, link: ShareLink, now: int): (r: Reply<SharedItem>)
    ensures r.Ok? <==> now <= link.expiresAt && HasUpload(owner.uploadHistory, link.itemId)
    ensures r == Err(404, "Share link expired") <==> link.expiresAt < now
    ensures r == Err(404, "Shared item not found")
            <==> now <= link.expiresAt && !HasUpload(owner.uploadHistory, link.itemId)
    ensures r.Ok? ==> r.data == SharedItem(FindUpload(owner.uploadHistory, link.itemId).value,
                                           owner.username, link.expiresAt)
  {
    if link.expiresAt < now then Err(404, "Share link expired")
    else
      match FindUpload(owner.uploadHistory, link.itemId)
      case None => Err(404, "Shared item not found")
      case Some(item) => Ok(200, "", SharedItem(item, owner.username, link.expiresAt))
  }

  /** getSharedItem: the first document holding a link with `token`, that
      document's first such link, and the upload it names. A link is refused
      only once `now` is past its expiry, so it still opens at exactly
      `expiresAt`. */
  function GetSharedItem(users: seq<OwnerView>, token: string, now: int): (r: Reply<SharedItem>)
    ensures r == Err(404, "Share link not found or expired")
            <==> forall i | 0 <= i < |users| :: !HoldsToken(users[i], token)
    ensures (exists i | 0 <= i < |users| :: HoldsToken(users[i], token))
            ==> exists i, j | FirstHolder(users, token, i) :: FirstLink(users[i].shareLinks, token, j)
    ensures forall i, j | FirstHolder(users, token, i) && FirstLink(users[i].shareLinks, token, j) ::
              var owner := users[i];
              var link := owner.shareLinks[j];
              && (r.Ok? <==> now <= link.expiresAt && HasUpload(owner.uploadHistory, link.itemId))
              && (r == Err(404, "Share link expired") <==> link.expiresAt < now)
              && (r == Err(404, "Shared item not found")
                  <==> now <= link.expiresAt && !HasUpload(owner.uploadHistory, link.itemId))
              && (r.Ok? ==> r.data == SharedItem(FindUpload(owner.uploadHistory, link.itemId).value,
                                                 owner.username, link.expiresAt))
  {
    match FindIndex(users, (v: OwnerView) => HoldsToken(v, token))
    case None => Err(404, "Share link not found or expired")
    case Some(i) =>
      var owner := users[i];
      assert FirstHolder(users, token, i);
      FirstHolderUnique(users, token, i);
      var j := FirstLinkIndex(owner.shareLinks, token);
      FirstLinkUnique(owner.shareLinks, token, j);
      OpenLink(owner, owner.shareLinks[j], now)
  }

  /** A link made at time `t` by generateShareLink still opens at its expiry
      instant and is refused one millisecond later. */
  lemma LinkExpiryBoundary(owner: OwnerView, t: int)
    requires |owner.shareLinks| > 0
    requires owner.shareLinks[0].expiresAt == t + LinkLifetimeMs
    requires HasUpload(owner.uploadHistory, owner.shareLinks[0].itemId)
    ensures GetSharedItem([owner], owner.shareLinks[0].token, t + LinkLifetimeMs).Ok?
    ensures GetSharedItem([owner], owner.shareLinks[0].token, t + LinkLifetimeMs + 1)
            == Err(404, "Share link expired")
  {
    var token := owner.shareLinks[0].token;
    assert HoldsToken(owner, token);
  }
}
