/** The attachment registry: resolving a file reference to a Markdown fragment and queueing the
    file for copying, keyed by its content hash. */
module FileHandling {
  import opened Wrappers

  /** A block's `file` record: the display name and the content hash, each possibly absent.
      A present JSON `null` is not expressible: `None` is a missing key, to which `.get`'s default applies. */
  datatype FileInfo = FileInfo(name: Option<string>, hash: Option<string>)

  /** The name used in the link; an absent name is shown as `unnamed_file`. */
  function DisplayName(info: FileInfo): string
  {
    info.name.GetOr("unnamed_file")
  }

  /** A hash that is present and non-empty (a truthy string). */
  predicate HasHash(info: FileInfo)
  {
    info.hash.Some? && info.hash.value != ""
  }

  /** The name under which the attachment is stored next to the exported notes. */
  function CopyDestination(hash: string, info: FileInfo): string
  {
    hash + "_" + DisplayName(info)
  }

  /** The Markdown fragment returned for an attachment: an image embed into `attachments/` when
      the hash is known, otherwise a link to `file_not_found`. */
  function AttachmentLink(info: FileInfo): string
  {
    if HasHash(info) then
      "![" + DisplayName(info) + "](attachments/" + info.hash.value + "_" + DisplayName(info) + ")"
    else
      "[" + DisplayName(info) + "](file_not_found)"
  }

  /** The pending copies after registering `info`: overwritten under its hash, or left alone. */
  function Register(files: map<string, FileInfo>, info: FileInfo): (r: map<string, FileInfo>)
    ensures HasHash(info) ==> info.hash.value in r && r[info.hash.value] == info
    ensures r.Keys == if HasHash(info) then files.Keys + {info.hash.value} else files.Keys
  {
    if HasHash(info) then files[info.hash.value := info] else files
  }

  /** A registry of attachments waiting to be copied. */
  class FileHandler {
    const attachmentsFolder: string
    var filesToCopy: map<string, FileInfo>

    constructor(attachmentsFolder: string)
      ensures this.attachmentsFolder == attachmentsFolder
      ensures filesToCopy == map[]
    {
      this.attachmentsFolder := attachmentsFolder;
      filesToCopy := map[];
    }

    /** Resolves `info` to its Markdown fragment and registers it for copying when it has a hash. */
    method HandleFileAttachment(info: FileInfo) returns (link: string)
      modifies this
      ensures link == AttachmentLink(info)
      ensures filesToCopy == Register(old(filesToCopy), info)
    {
      var fileName := DisplayName(info);
      var fileHash := if info.hash.Some? then info.hash.value else "";
      if fileHash != "" {
        filesToCopy := filesToCopy[fileHash := info];
        link := "![" + fileName + "](attachments/" + fileHash + "_" + fileName + ")";
      } else {
        link := "[" + fileName + "](file_not_found)";
      }
    }
  }

  /** The fragment is an image embed exactly when the hash is known, and a link to `file_not_found` otherwise. */
  lemma AttachmentLinkShape(info: FileInfo)
    ensures var link := AttachmentLink(info);
      (link[0] == '!' <==> HasHash(info)) &&
      (!HasHash(info) ==> EndsWithNotFound(link))
  {
    var link := AttachmentLink(info);
    if !HasHash(info) {
      assert link[0] == '[';
      assert link[|link| - 16..] == "](file_not_found)"[1..];
    }
  }

  /** The link ends in the `file_not_found` target. */
  predicate EndsWithNotFound(link: string)
  {
    |link| >= 17 && link[|link| - 17..] == "](file_not_found)"
  }

  /** Registering never touches the entries of other hashes. */
  lemma RegisterKeepsOthers(files: map<string, FileInfo>, info: FileInfo, h: string)
    requires h in files
    requires !HasHash(info) || h != info.hash.value
    ensures h in Register(files, info) && Register(files, info)[h] == files[h]
  {
  }

  /** Registering the same reference twice leaves the same pending copies as registering it once. */
  lemma RegisterIdempotent(files: map<string, FileInfo>, info: FileInfo)
    ensures Register(Register(files, info), info) == Register(files, info)
  {
  }

  /** Of two references with one hash, the later one is what gets copied. */
  lemma RegisterLastWins(files: map<string, FileInfo>, first: FileInfo, second: FileInfo)
    requires HasHash(first) && HasHash(second) && first.hash == second.hash
    ensures Register(Register(files, first), second) == Register(files, second)
  {
  }

  /** Registering a reference with no hash changes nothing and yields the not-found link. */
  lemma NoHashNotRegistered(files: map<string, FileInfo>, info: FileInfo)
    requires !HasHash(info)
    ensures Register(files, info) == files
    ensures AttachmentLink(info) == "[" + DisplayName(info) + "](file_not_found)"
  {
  }

  /** The destination name as `copy_all_files` builds it: the stored record's `name` is read
      directly, which fails (a `KeyError`) when the record has no name. */
  function CopyDestinationAsWritten(hash: string, info: FileInfo): (r: Option<string>)
    ensures r.Some? <==> info.name.Some?
    ensures r.Some? ==> r.value == CopyDestination(hash, info)
  {
    if info.name.Some? then Some(hash + "_" + info.name.value) else None
  }

  /** An unnamed attachment gets a link into `attachments/`, but the copy step cannot produce
      the file it points to. */
  lemma UnnamedAttachmentNotCopied()
    ensures var info := FileInfo(None, Some("h"));
      DisplayName(info) == "unnamed_file" &&
      AttachmentLink(info) == "![" + DisplayName(info) + "](attachments/" + CopyDestination("h", info) + ")" &&
      CopyDestination("h", info) == "h_unnamed_file" &&
      CopyDestinationAsWritten("h", info) == None
  {
    var info := FileInfo(None, Some("h"));
    assert DisplayName(info) == "unnamed_file";
    assert HasHash(info) by {
      assert info.hash.value == "h";
    }
  }

  /** With the display name used on both sides, every embed link points at the copied file. */
  lemma LinkTargetsCopyDestination(info: FileInfo)
    requires HasHash(info)
    ensures AttachmentLink(info) == "![" + DisplayName(info) + "](attachments/" + CopyDestination(info.hash.value, info) + ")"
  {
  }
}
