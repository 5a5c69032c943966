/** The client's store of uploaded files (client/src/redux/fileSlice.js): the
    list of upload-history entries with a loading flag and an error, updated
    by the outcomes of the fetch, upload and delete requests. */
module FileSlice {
  import opened Js
  import Api

  /** What the fetch request resolves with: the `files` property of the body. */
  function FetchPayload(reply: Value): Value
  {
    Prop(reply, "files")
  }

  /** What the upload request resolves with: the `file` property of the body. */
  function UploadPayload(reply: Value): Value
  {
    Prop(reply, "file")
  }

  /** The body the server sends after a successful upload. */
  function UploadReplyBody(summary: Value): Value
  {
    Obj([("success", Bool(true)), ("message", Str("File uploaded and parsed")), ("data", summary)])
  }

  /** The upload reply carries its summary under `data`, not `file`, so the
      upload resolves with `undefined`. */
  lemma UploadPayloadUndefined(summary: Value)
    ensures UploadPayload(UploadReplyBody(summary)) == Undefined
  {
  }

  /** A failed request's reducer value is the client's error message; the
      fallback is used only for an empty message, which a response never
      gives when the server's message is a string or absent. */
  lemma RejectionCarriesResponseMessage(status: int, data: Value, fallback: string)
    requires !Prop(data, "message").Arr?
    requires Api.HandleResponse(status, Some(data)).Rejected?
    ensures Api.RejectValue(Api.HandleResponse(status, Some(data)).message, fallback)
            == Str(Api.HandleResponse(status, Some(data)).message)
  {
    Api.RejectionNeverEmpty(status, data);
  }

  /** `f => f._id !== id`. */
  function KeepsOther(id: Value): Value -> bool
  {
    f => !StrictEq(Prop(f, "_id"), id)
  }

  /** `files.filter(f => f._id !== id)`. */
  function RemoveById(files: seq<Value>, id: Value): (r: seq<Value>)
    ensures |r| <= |files|
    ensures forall f | f in r :: f in files && !StrictEq(Prop(f, "_id"), id)
  {
    FilterSubset(files, KeepsOther(id));
    Filter(files, KeepsOther(id))
  }

  /** The entries a delete keeps are exactly those whose `_id` differs from
      the deleted id. */
  lemma RemoveByIdMembership(files: seq<Value>, id: Value, f: Value)
    ensures f in RemoveById(files, id) <==> f in files && !StrictEq(Prop(f, "_id"), id)
  {
    FilterMembership(files, KeepsOther(id), f);
  }

  /** Deleting twice is deleting once. */
  lemma RemoveByIdIdempotent(files: seq<Value>, id: Value)
    ensures RemoveById(RemoveById(files, id), id) == RemoveById(files, id)
  {
    FilterIdempotent(files, KeepsOther(id));
  }

  /** A delete keeps the surviving entries in their order: deleting from two
      lists put together is deleting from each and putting them together. */
  lemma RemoveByIdConcat(front: seq<Value>, back: seq<Value>, id: Value)
    ensures RemoveById(front + back, id) == RemoveById(front, id) + RemoveById(back, id)
  {
    FilterConcat(front, back, KeepsOther(id));
  }

  /** Walking one more entry keeps it exactly when its `_id` differs. */
  lemma RemoveByIdSnoc(files: seq<Value>, f: Value, id: Value)
    ensures RemoveById(files + [f], id)
            == RemoveById(files, id) + if !StrictEq(Prop(f, "_id"), id) then [f] else []
  {
    FilterSnoc(files, f, KeepsOther(id));
    assert KeepsOther(id)(f) == !StrictEq(Prop(f, "_id"), id);
  }

  /** A delete whose id matches no entry's `_id` keeps the list as it is;
      an object id never matches (objects are never `===`), and the list page
      deletes by stored file name, which matches only an entry whose `_id` is
      that same string. */
  lemma RemoveUnmatched(files: seq<Value>, id: Value)
    requires forall i | 0 <= i < |files| :: !StrictEq(Prop(files[i], "_id"), id)
    ensures RemoveById(files, id) == files
  {
    FilterKeepsAll(files, KeepsOther(id));
  }

  class FileState {
    var files: seq<Value>
    var loading: bool
    var error: Value

    /** `initialState`. */
    constructor ()
      ensures files == [] && !loading && error == Null
    {
      files := [];
      loading := false;
      error := Null;
    }

    /** `fetchFiles.pending`. */
    method FetchPending()
      modifies this
      ensures loading && error == Null && files == old(files)
    {
      loading := true;
      error := Null;
    }

    /** `fetchFiles.fulfilled`: the list is replaced by the server's list. */
    method FetchFulfilled(payload: seq<Value>)
      modifies this
      ensures !loading && files == payload && error == old(error)
    {
      loading := false;
      files := payload;
    }

    /** `fetchFiles.rejected`: the list stays, the error is recorded. */
    method FetchRejected(payload: Value)
      modifies this
      ensures !loading && error == payload && files == old(files)
    {
      loading := false;
      error := payload;
    }

    /** `uploadFile.fulfilled`: the new entry goes to the front. */
    method UploadFulfilled(payload: Value)
      modifies this
      ensures files == [payload] + old(files)
      ensures loading == old(loading) && error == old(error)
    {
      files := [payload] + files;
    }

    /** `deleteFile.fulfilled`: every entry with that `_id` is dropped. When
        some entry is null or undefined, reading its `_id` throws inside the
        reducer and the state stays as it was. */
    method DeleteFulfilled(payload: Value)
      modifies this
      ensures (forall i | 0 <= i < |old(files)| :: !Nullish(old(files)[i])) ==> files == RemoveById(old(files), payload)
      ensures (exists i | 0 <= i < |old(files)| :: Nullish(old(files)[i])) ==> files == old(files)
      ensures loading == old(loading) && error == old(error)
    {
      if forall i | 0 <= i < |files| :: !Nullish(files[i]) {
        files := RemoveById(files, payload);
      }
    }
  }
}
