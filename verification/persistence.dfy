/** The shaping around saving and loading a transcript (utils.py,
    `save_chat_history` and `load_chat_history`). The history directory is a
    map from file name to the document stored under it, and the two clock
    readings a save takes are parameters. */
module Persistence {
  import opened Wrappers
  import opened Transcript
  import Sanitize

  /** A stored JSON document: the wrapped form written by a save, a bare list
      of messages as older versions wrote it, JSON `null`, or anything else.
      `Wrapped` stands for every JSON object with a `"messages"` key whose
      value is a message list, with or without the other two keys; loading
      reads only `messages` and ignores `timestamp` and `messageCount`. */
  datatype Document =
    | Wrapped(timestamp: string, messageCount: int, messages: Transcript)
    | Bare(messages: Transcript)
    | Null
    | Other

  /** The saved-transcript directory: file name to document. */
  type Directory = map<string, Document>

  /** Stem used when no custom name is given. */
  const DEFAULT_STEM: string := "chat_history"
  const EXTENSION: string := ".json"

  /** The part of the file name before the timestamp: the sanitised custom
      name when one is given and non-empty, the default stem otherwise. */
  function FileStem(customName: Option<string>): (stem: string)
    ensures customName.Some? && customName.value != [] ==>
      stem == Sanitize.Sanitized(customName.value)
    ensures customName.None? || customName.value == [] ==> stem == DEFAULT_STEM
    ensures forall i :: 0 <= i < |stem| ==> !Sanitize.IsInvalid(stem[i])
  {
    if customName.Some? && customName.value != [] then Sanitize.Sanitized(customName.value)
    else DEFAULT_STEM
  }

  /** The file name a save writes: stem, underscore, timestamp, extension. */
  function SaveFilename(customName: Option<string>, timestamp: string): (name: string)
    ensures |name| == |FileStem(customName)| + 1 + |timestamp| + |EXTENSION|
    ensures name[..|FileStem(customName)|] == FileStem(customName)
    ensures name[|FileStem(customName)|] == '_'
    ensures name[|FileStem(customName)| + 1..|name| - |EXTENSION|] == timestamp
    ensures name[|name| - |EXTENSION|..] == EXTENSION
  {
    FileStem(customName) + "_" + timestamp + EXTENSION
  }

  /** The document a save writes: the clock reading, the message count and
      the messages. Its count always agrees with its messages. */
  function SaveDocument(h: Transcript, timestamp: string): (d: Document)
    ensures d.Wrapped? && WellFormed(d)
    ensures d.messages == h && d.timestamp == timestamp
  {
    Wrapped(timestamp, |h|, h)
  }

  /** A wrapped document's count agrees with its messages. */
  predicate WellFormed(d: Document) {
    d.Wrapped? ==> d.messageCount == |d.messages|
  }

  /** `save_chat_history`: writes the document under the new file name and
      returns the new directory and that name. `fileTime` is the reading used
      in the name, `docTime` the one stored in the document. */
  function SaveChatHistory(dir: Directory, h: Transcript, customName: Option<string>,
                           fileTime: string, docTime: string): (r: (Directory, string))
    ensures r.1 == SaveFilename(customName, fileTime)
    ensures r.0.Keys == dir.Keys + {r.1}
    ensures r.1 in r.0 && r.0[r.1] == SaveDocument(h, docTime)
    ensures forall f :: f in dir && f != r.1 ==> f in r.0 && r.0[f] == dir[f]
  {
    var name := SaveFilename(customName, fileTime);
    (dir[name := SaveDocument(h, docTime)], name)
  }

  /** What loading makes of a document: the messages of a wrapped document,
      any other document as it is. */
  function Unwrap(d: Document): (r: Document)
    ensures !r.Wrapped?
    ensures d.Wrapped? ==> r == Bare(d.messages)
    ensures !d.Wrapped? ==> r == d
  {
    match d
    case Wrapped(_, _, messages) => Bare(messages)
    case _ => d
  }

  /** `load_chat_history`: nothing for a missing file, and nothing for a file
      holding JSON `null`, which is returned as it is and so reads as `None`;
      otherwise the unwrapped document. */
  function LoadChatHistory(dir: Directory, filename: string): (r: Option<Document>)
    ensures r.None? <==> filename !in dir || dir[filename].Null?
    ensures filename in dir && !dir[filename].Null? ==> r == Some(Unwrap(dir[filename]))
    ensures r.Some? ==> !r.value.Null? && !r.value.Wrapped?
  {
    if filename !in dir then None
    else
      var d := Unwrap(dir[filename]);
      if d.Null? then None else Some(d)
  }

  /** Loading what was just saved gives back exactly the saved messages. */
  lemma SaveLoadRoundTrip(dir: Directory, h: Transcript, customName: Option<string>,
                          fileTime: string, docTime: string)
    ensures var (dir', name) := SaveChatHistory(dir, h, customName, fileTime, docTime);
      LoadChatHistory(dir', name) == Some(Bare(h))
  {
  }

  /** Saving leaves what every other file loads as unchanged. */
  lemma SaveKeepsOtherFiles(dir: Directory, h: Transcript, customName: Option<string>,
                            fileTime: string, docTime: string, other: string)
    requires other != SaveFilename(customName, fileTime)
    ensures LoadChatHistory(SaveChatHistory(dir, h, customName, fileTime, docTime).0, other) ==
      LoadChatHistory(dir, other)
  {
  }

  /** A legacy bare list loads as it is. */
  lemma LoadLegacy(dir: Directory, filename: string, h: Transcript)
    requires filename in dir && dir[filename] == Bare(h)
    ensures LoadChatHistory(dir, filename) == Some(Bare(h))
  {
  }

  /** A file name holds no invalid character when its timestamp holds none. */
  lemma SaveFilenameIsSanitized(customName: Option<string>, timestamp: string)
    requires forall i :: 0 <= i < |timestamp| ==> !Sanitize.IsInvalid(timestamp[i])
    ensures var name := SaveFilename(customName, timestamp);
      forall i :: 0 <= i < |name| ==> !Sanitize.IsInvalid(name[i])
  {
    var stem := FileStem(customName);
    var name := SaveFilename(customName, timestamp);
    forall i | 0 <= i < |name| ensures !Sanitize.IsInvalid(name[i]) {
      if i < |stem| {
        assert name[i] == stem[i];
      } else if i == |stem| {
      } else if i < |name| - |EXTENSION| {
        assert name[i] == timestamp[i - |stem| - 1];
      } else {
        assert name[i] == EXTENSION[i - (|name| - |EXTENSION|)];
      }
    }
  }

  /** Two saves under the same name at different times write different files. */
  lemma SaveFilenamesDistinct(customName: Option<string>, t1: string, t2: string)
    requires t1 != t2
    ensures SaveFilename(customName, t1) != SaveFilename(customName, t2)
  {
  }
}
