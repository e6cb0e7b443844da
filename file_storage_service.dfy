/** `FileStorageService`: file attachments of tasks. The key under which a
    file is stored is a random UUID followed by the extension of the
    uploaded name; the bytes go to S3 or to a local directory, which the
    model reduces to the set of stored keys. */
module FileStorage {
  import opened Wrappers
  import opened Text
  import opened Domain
  import opened Audit
  import opened Tasks

  type AttachmentId = int

  const LocalDownloadPrefix: string := "/api/files/download/"

  datatype FileAttachment = FileAttachment(
    id: AttachmentId,
    fileName: string,
    fileKey: string,
    contentType: Option<string>,
    fileSize: int,
    taskId: TaskId)

  /** `FileAttachmentDTO`: the attachment with its download URL. */
  datatype FileAttachmentDto = FileAttachmentDto(attachment: FileAttachment, downloadUrl: string)

  /** `"S3".equalsIgnoreCase(storageType)`: any other value means local storage. */
  predicate IsS3(storageType: string) {
    EqualsIgnoreCase("S3", storageType)
  }

  lemma StorageTypeIgnoresCase()
    ensures IsS3("S3") && IsS3("s3")
    ensures !IsS3("LOCAL") && !IsS3("") && !IsS3("S3 ")
  {
    assert ToUpper("s3") == "S3";
    assert ToUpper("LOCAL") == "LOCAL";
    assert |ToUpper("S3 ")| == 3;
  }

  /** The extension of a file name: from its last '.', when that is not the
      first character, to the end; otherwise empty. */
  function FileExtension(name: string): (r: string)
    ensures r != [] <==> exists i :: 0 < i < |name| && name[i] == '.'
    ensures r != [] ==> r[0] == '.' && forall i :: 1 <= i < |r| ==> r[i] != '.'
    ensures |r| <= |name| && r == name[|name| - |r|..]
  {
    var dot := LastIndexOf(name, '.');
    if dot > 0 then name[dot..] else ""
  }

  lemma ExtensionExamples()
    ensures FileExtension("a.tar.gz") == ".gz"
    ensures FileExtension(".bashrc") == ""
    ensures FileExtension("README") == ""
    ensures FileExtension("notes.") == "."
  {
    assert "a.tar.gz"[5] == '.' && "notes."[5] == '.';
    assert forall i :: 0 < i < 7 ==> ".bashrc"[i] != '.';
    assert forall i :: 0 < i < 6 ==> "README"[i] != '.';
    var gz := FileExtension("a.tar.gz");
    assert gz == "a.tar.gz"[8 - |gz|..];
  }

  /** `generateFileKey`: the UUID followed by the extension. */
  function GenerateFileKey(name: string, uuid: string): (r: string)
    ensures |r| == |uuid| + |FileExtension(name)|
    ensures r[..|uuid|] == uuid && r[|uuid|..] == FileExtension(name)
  {
    uuid + FileExtension(name)
  }

  /** A UUID string has no '.', so the key keeps exactly the extension of the
      uploaded name. */
  lemma {:induction false} KeyKeepsExtension(name: string, uuid: string)
    requires |uuid| > 0 && forall i :: 0 <= i < |uuid| ==> uuid[i] != '.'
    ensures FileExtension(GenerateFileKey(name, uuid)) == FileExtension(name)
  {
    var ext := FileExtension(name);
    var key := GenerateFileKey(name, uuid);
    var dot := LastIndexOf(key, '.');
    if ext == [] {
      assert forall i :: 0 <= i < |key| ==> key[i] == uuid[i];
      assert dot == -1;
    } else {
      assert key[|uuid|] == '.';
      assert forall i :: |uuid| < i < |key| ==> key[i] == ext[i - |uuid|];
      assert dot == |uuid|;
      assert key[dot..] == ext;
    }
  }

  /** `generatePresignedUrl`. The S3 presigner is a foreign call, given as `presign`. */
  function GeneratePresignedUrl(storageType: string, fileKey: string, presign: string -> string): (r: string)
    ensures !IsS3(storageType) ==>
              && |r| == |LocalDownloadPrefix| + |fileKey|
              && r[..|LocalDownloadPrefix|] == LocalDownloadPrefix && r[|LocalDownloadPrefix|..] == fileKey
    ensures IsS3(storageType) ==> r == presign(fileKey)
  {
    if IsS3(storageType) then presign(fileKey) else LocalDownloadPrefix + fileKey
  }

  /** Under local storage distinct keys give distinct download URLs, so a
      URL names exactly one stored file. */
  lemma LocalUrlsDistinct(storageType: string, k1: string, k2: string, presign: string -> string)
    requires !IsS3(storageType)
    requires GeneratePresignedUrl(storageType, k1, presign) == GeneratePresignedUrl(storageType, k2, presign)
    ensures k1 == k2
  {
    var u := GeneratePresignedUrl(storageType, k1, presign);
    assert k1 == u[|LocalDownloadPrefix|..];
    assert k2 == u[|LocalDownloadPrefix|..];
  }

  function UploadRecord(a: FileAttachment): AuditLog {
    AuditLog("FILE", a.id, FileUpload, "SYSTEM", None, Some(a.fileName), "File uploaded for task " + IntToString(a.taskId))
  }

  function DeleteRecord(a: FileAttachment): AuditLog {
    AuditLog("FILE", a.id, FileDelete, "SYSTEM", Some(a.fileName), None, "File deleted")
  }

  class FileStorageService {
    const tasks: TaskService
    const audit: AuditLogService
    /** `app.storage.type`. */
    const storageType: string
    /** The attachment table. */
    var attachments: map<AttachmentId, FileAttachment>
    var nextId: AttachmentId
    /** The keys present in the bucket or the upload directory. */
    var stored: set<string>

    /** The attachment is still in the table. Deleting a task deletes its
        attachment rows with it (the relation cascades), so an attachment
        whose task is gone no longer exists, though its bytes stay stored. */
    predicate Live(id: AttachmentId)
      reads this, tasks
    {
      id in attachments && attachments[id].taskId in tasks.store
    }

    ghost predicate Valid()
      reads this
    {
      && nextId > 0
      && (forall id :: id in attachments ==> attachments[id].id == id && 0 < id < nextId)
    }

    constructor (tasks: TaskService, storageType: string)
      ensures Valid() && this.tasks == tasks && audit == tasks.audit && this.storageType == storageType
      ensures attachments == map[] && stored == {}
    {
      this.tasks := tasks;
      this.audit := tasks.audit;
      this.storageType := storageType;
      attachments := map[];
      nextId := 1;
      stored := {};
    }

    /** `uploadFile`. `fileName` is the cleaned original name, `uuid` the
        random UUID, `presign` the S3 presigner and `storageFails` whether
        writing the bytes throws an I/O error. The empty-file check comes
        before the task lookup, and both before anything is written. */
    method UploadFile(fileEmpty: bool, fileName: string, contentType: Option<string>, size: int, taskId: TaskId,
                      uuid: string, presign: string -> string, storageFails: bool)
      returns (r: Result<FileAttachmentDto, Error>)
      requires Valid()
      modifies this`attachments, this`nextId, this`stored, audit`records
      ensures Valid()
      ensures fileEmpty ==> r == Err(FileStorageError("Cannot upload empty file"))
      ensures !fileEmpty && taskId !in tasks.store ==> r == Err(ResourceNotFound("Task", "id"))
      ensures !fileEmpty && taskId in tasks.store && storageFails ==>
                r == Err(FileStorageError("Failed to upload file: " + fileName))
      ensures r.Ok? <==> !fileEmpty && taskId in tasks.store && !storageFails
      ensures r.Err? ==>
                && attachments == old(attachments) && nextId == old(nextId) && stored == old(stored)
                && audit.records == old(audit.records)
      ensures r.Ok? ==>
                && !fileEmpty && taskId in tasks.store && !storageFails
                && var a := FileAttachment(old(nextId), fileName, GenerateFileKey(fileName, uuid), contentType, size, taskId);
                && r.value == FileAttachmentDto(a, GeneratePresignedUrl(storageType, a.fileKey, presign))
                && a.id !in old(attachments)
                && attachments == old(attachments)[a.id := a] && nextId == old(nextId) + 1
                && stored == old(stored) + {a.fileKey}
                && audit.records == old(audit.records) + audit.Kept([UploadRecord(a)])
    {
      if fileEmpty {
        return Err(FileStorageError("Cannot upload empty file"));
      }
      if taskId !in tasks.store {
        return Err(ResourceNotFound("Task", "id"));
      }
      var fileKey := GenerateFileKey(fileName, uuid);
      if storageFails {
        return Err(FileStorageError("Failed to upload file: " + fileName));
      }
      stored := stored + {fileKey};
      var a := FileAttachment(nextId, fileName, fileKey, contentType, size, taskId);
      attachments := attachments[a.id := a];
      nextId := nextId + 1;
      audit.Log("FILE", a.id, FileUpload, "SYSTEM", None, Some(fileName), "File uploaded for task " + IntToString(taskId));
      r := Ok(FileAttachmentDto(a, GeneratePresignedUrl(storageType, fileKey, presign)));
    }

    /** `deleteFile`. An attachment removed with its task is not found.
        `storageFails` is whether removing the bytes throws; the failure is
        wrapped and nothing else changes. */
    method DeleteFile(id: AttachmentId, storageFails: bool) returns (r: Result<(), Error>)
      requires Valid()
      modifies this`attachments, this`stored, audit`records
      ensures Valid()
      ensures !old(Live(id)) ==> r == Err(ResourceNotFound("FileAttachment", "id"))
      ensures old(Live(id)) && storageFails ==>
                r == Err(FileStorageError("Failed to delete file: " + old(attachments)[id].fileName))
      ensures r.Ok? <==> old(Live(id)) && !storageFails
      ensures r.Err? ==> attachments == old(attachments) && stored == old(stored) && audit.records == old(audit.records)
      ensures r.Ok? ==>
                && id in old(attachments) && !storageFails
                && attachments == old(attachments) - {id}
                && stored == old(stored) - {old(attachments)[id].fileKey}
                && audit.records == old(audit.records) + audit.Kept([DeleteRecord(old(attachments)[id])])
    {
      if !Live(id) {
        return Err(ResourceNotFound("FileAttachment", "id"));
      }
      var a := attachments[id];
      if storageFails {
        return Err(FileStorageError("Failed to delete file: " + a.fileName));
      }
      stored := stored - {a.fileKey};
      attachments := attachments - {id};
      audit.Log("FILE", id, FileDelete, "SYSTEM", Some(a.fileName), None, "File deleted");
      r := Ok(());
    }
  }
}
