/** The User document's embedded collections: its upload history, the
    records of items it shared, its share links and its teams. */
module UserDocument {
  import opened Js

  /** A saved chart configuration; only its type is read by the platform. */
  datatype ChartConfig = ChartConfig(chartType: Value)

  /** One upload: `id` is the sub-document id, `fileName` the name on disk. */
  datatype UploadEntry = UploadEntry(
    id: string,
    fileName: string,
    originalName: string,
    fileSize: int,
    chartConfigs: seq<ChartConfig>,
    uploadDate: Value)

  datatype ShareRecord = ShareRecord(
    id: string,
    itemId: string,
    itemType: string,
    ownerId: string,
    recipientId: string,
    recipientEmail: string,
    message: Option<string>,
    permissions: string,
    sharedAt: int,
    expiresAt: int)

  datatype ShareLink = ShareLink(
    token: string,
    itemId: string,
    itemType: string,
    ownerId: string,
    expiresAt: int,
    createdAt: int)

  datatype Team = Team(
    id: string,
    name: string,
    description: string,
    ownerId: string,
    members: seq<string>,
    createdAt: int,
    updatedAt: int)

  /** Some upload of `history` is stored under `fileName`. */
  predicate HasUpload(history: seq<UploadEntry>, fileName: string)
  {
    exists i | 0 <= i < |history| :: history[i].fileName == fileName
  }

  /** `history.find(file => file.fileName === fileName)`. */
  function FindUpload(history: seq<UploadEntry>, fileName: string): (r: Option<UploadEntry>)
    ensures r.Some? <==> HasUpload(history, fileName)
    ensures r.Some? ==> r.value in history && r.value.fileName == fileName
    ensures r.Some? ==> exists i | 0 <= i < |history| :: history[i] == r.value
                          && forall j | 0 <= j < i :: history[j].fileName != fileName
  {
    match FindIndex(history, (e: UploadEntry) => e.fileName == fileName)
    case None => None
    case Some(k) => Some(history[k])
  }

  /** One user's document, as far as the collaboration, upload and report
      handlers read and write it. */
  class UserDoc {
    const id: string
    var username: string
    var email: string
    var uploadHistory: seq<UploadEntry>
    var sharedItems: seq<ShareRecord>
    var shareLinks: seq<ShareLink>
    var teams: seq<Team>
    var updatedAt: int

    /** Every share record and share link belongs to this user and names one
        of its uploads, and every team is owned by this user. */
    ghost predicate Valid()
      reads this
    {
      && (forall r | r in sharedItems :: r.ownerId == id && HasUpload(uploadHistory, r.itemId))
      && (forall l | l in shareLinks :: l.ownerId == id && HasUpload(uploadHistory, l.itemId))
      && (forall t | t in teams :: t.ownerId == id)
    }

    constructor (id: string, username: string, email: string, now: int)
      ensures Valid()
      ensures this.id == id && this.username == username && this.email == email
      ensures uploadHistory == [] && sharedItems == [] && shareLinks == [] && teams == []
      ensures updatedAt == now
    {
      this.id := id;
      this.username := username;
      this.email := email;
      uploadHistory := [];
      sharedItems := [];
      shareLinks := [];
      teams := [];
      updatedAt := now;
    }
  }
}
