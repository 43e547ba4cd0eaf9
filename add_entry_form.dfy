/**
 * The "Add New Entry" dialog (apps/web/src/components/AddEntryModal.tsx).
 *
 * The component keeps five pieces of state, changed by its event handlers;
 * the class below has them as fields and the handlers as methods. The
 * callbacks `onAdd` and `onClose` are recorded, in order, in `calls`. Reading a
 * dropped or chosen file (`FileReader.readAsDataURL`) is taken to complete at
 * once, yielding the file's data URL; "today" is a parameter.
 */
module AddEntryForm {
  import opened Wrappers
  import opened Entries

  // ----- String.prototype.trim -----

  /** The characters `trim` removes: WhiteSpace and LineTerminator of
      ECMA-262 (sections 12.2 and 12.3), the space separators listed out. */
  predicate IsWhitespace(c: char)
  {
    || c == '\t' || c == '\U{000B}' || c == '\U{000C}' || c == ' ' || c == '\U{00A0}' || c == '\U{FEFF}'
    || c == '\U{1680}' || ('\U{2000}' <= c <= '\U{200A}') || c == '\U{202F}' || c == '\U{205F}' || c == '\U{3000}'
    || c == '\n' || c == '\r' || c == '\U{2028}' || c == '\U{2029}'
  }

  /** The index of the first character at or after `i` that is not
      whitespace, or `|s|` when there is none. */
  function SkipLeading(s: string, i: nat): (k: nat)
    requires i <= |s|
    ensures i <= k <= |s|
    ensures forall j :: i <= j < k ==> IsWhitespace(s[j])
    ensures k < |s| ==> !IsWhitespace(s[k])
    decreases |s| - i
  {
    if i < |s| && IsWhitespace(s[i]) then SkipLeading(s, i + 1) else i
  }

  /** One past the last character in `s[lo..hi]` that is not whitespace, or
      `lo` when there is none. */
  function SkipTrailing(s: string, lo: nat, hi: nat): (k: nat)
    requires lo <= hi <= |s|
    ensures lo <= k <= hi
    ensures forall j :: k <= j < hi ==> IsWhitespace(s[j])
    ensures lo < k ==> !IsWhitespace(s[k - 1])
  {
    if lo < hi && IsWhitespace(s[hi - 1]) then SkipTrailing(s, lo, hi - 1) else hi
  }

  /** `s.trim()`: drop the leading whitespace, then the trailing whitespace. */
  function Trim(s: string): string
  {
    var lo := SkipLeading(s, 0);
    s[lo..SkipTrailing(s, lo, |s|)]
  }

  /** The trimmed string is the infix `s[lo..hi]` left after dropping the
      longest whitespace prefix and the longest whitespace suffix. */
  lemma TrimIsInfix(s: string)
    ensures exists lo, hi {:trigger s[lo..hi]} ::
      && 0 <= lo <= hi <= |s| && Trim(s) == s[lo..hi]
      && (forall i :: 0 <= i < lo ==> IsWhitespace(s[i]))
      && (forall i :: hi <= i < |s| ==> IsWhitespace(s[i]))
      && (lo < hi ==> !IsWhitespace(s[lo]) && !IsWhitespace(s[hi - 1]))
  {
    var lo := SkipLeading(s, 0);
    var hi := SkipTrailing(s, lo, |s|);
    assert Trim(s) == s[lo..hi];
  }

  /** Trimming leaves nothing exactly when every character is whitespace. */
  lemma {:induction false} TrimBlank(s: string)
    ensures Trim(s) == [] <==> forall i :: 0 <= i < |s| ==> IsWhitespace(s[i])
  {
    var lo := SkipLeading(s, 0);
    var hi := SkipTrailing(s, lo, |s|);
    assert |Trim(s)| == hi - lo;
  }

  /** Trimming twice is trimming once. */
  lemma TrimIdempotent(s: string)
    ensures Trim(Trim(s)) == Trim(s)
  {
    var lo := SkipLeading(s, 0);
    var hi := SkipTrailing(s, lo, |s|);
    var r := Trim(s);
    assert r == s[lo..hi];
    if r != [] {
      assert r[0] == s[lo] && r[|r| - 1] == s[hi - 1];
      assert SkipLeading(r, 0) == 0;
      assert SkipTrailing(r, 0, |r|) == |r|;
      assert r[0..|r|] == r;
    }
  }

  // ----- The submit guard and the payload -----

  /** `photo && description.trim()`, the guard of `handleSubmit`. */
  predicate CanSubmit(photo: string, description: string)
  {
    photo != "" && Trim(description) != ""
  }

  /** The guard admits exactly a present photo with a description holding
      something other than whitespace. */
  lemma CanSubmitMeans(photo: string, description: string)
    ensures CanSubmit(photo, description) <==>
      photo != "" && exists i :: 0 <= i < |description| && !IsWhitespace(description[i])
  {
    TrimBlank(description);
  }

  /** `!photo || !description.trim()`, the `disabled` attribute of the submit button. */
  function SubmitDisabled(photo: string, description: string): (r: bool)
    ensures r <==> !CanSubmit(photo, description)
  {
    photo == "" || Trim(description) == ""
  }

  /** `link.trim() || undefined`. */
  function LinkField(link: string): (r: Option<string>)
    ensures r.Some? <==> exists i :: 0 <= i < |link| && !IsWhitespace(link[i])
    ensures r.Some? ==> r.value == Trim(link)
  {
    TrimBlank(link);
    var t := Trim(link);
    if t != "" then Some(t) else None
  }

  /** The object passed to `onAdd`. */
  function Payload(photo: string, description: string, date: Date, link: string): Candidate
  {
    Candidate(photo, Trim(description), date, LinkField(link))
  }

  /** A submitted candidate has a photo, a non-empty description without
      surrounding whitespace, and a link that is absent or non-empty and
      trimmed. */
  lemma PayloadIsClean(photo: string, description: string, date: Date, link: string)
    requires CanSubmit(photo, description)
    ensures var c := Payload(photo, description, date, link);
      && c.photo == photo && c.photo != ""
      && c.description != "" && Trim(c.description) == c.description
      && c.date == date
      && (c.link.Some? ==> c.link.value != "" && Trim(c.link.value) == c.link.value)
  {
    TrimBlank(description);
    TrimIdempotent(description);
    TrimIdempotent(link);
  }

  // ----- Files -----

  /** A dropped or chosen file: its MIME type and the data URL it reads as. */
  datatype File = File(mimeType: string, dataUrl: string)

  predicate StartsWith(s: string, prefix: string)
  {
    |prefix| <= |s| && s[..|prefix|] == prefix
  }

  /** `file.type.startsWith('image/')` */
  predicate IsImage(f: File)
  {
    StartsWith(f.mimeType, "image/")
  }

  // ----- The component -----

  /** A call the dialog makes to its parent. */
  datatype ModalCall = Added(candidate: Candidate) | Closed

  class AddEntryModal {
    var photo: string
    var description: string
    var date: Date
    var link: string
    var isDragging: bool
    /** `onAdd` and `onClose` invocations so far, oldest first. */
    var calls: seq<ModalCall>

    /** The four form fields as a fresh form has them. */
    predicate Cleared(today: Date)
      reads this
    {
      photo == "" && description == "" && date == today && link == ""
    }

    constructor (today: Date)
      ensures Cleared(today) && !isDragging && calls == []
    {
      photo := "";
      description := "";
      date := today;
      link := "";
      isDragging := false;
      calls := [];
    }

    /** The submit button's `disabled` attribute for the current fields. */
    function ButtonDisabled(): (r: bool)
      reads this
      ensures r <==> !CanSubmit(photo, description)
    {
      SubmitDisabled(photo, description)
    }

    /** `handleFileUpload`: only an image replaces the photo. */
    method HandleFileUpload(file: File)
      modifies this
      ensures photo == if IsImage(file) then file.dataUrl else old(photo)
      ensures description == old(description) && date == old(date) && link == old(link)
      ensures isDragging == old(isDragging) && calls == old(calls)
    {
      if StartsWith(file.mimeType, "image/") {
        photo := file.dataUrl;
      }
    }

    /** `handleDrop`: the drag ends; the first dropped file, if any, is uploaded. */
    method HandleDrop(files: seq<File>)
      modifies this
      ensures !isDragging
      ensures photo == if files != [] && IsImage(files[0]) then files[0].dataUrl else old(photo)
      ensures description == old(description) && date == old(date) && link == old(link)
      ensures calls == old(calls)
    {
      isDragging := false;
      if files != [] {
        HandleFileUpload(files[0]);
      }
    }

    /** `handleDragOver` */
    method HandleDragOver()
      modifies this
      ensures isDragging
      ensures photo == old(photo) && description == old(description) && date == old(date) && link == old(link)
      ensures calls == old(calls)
    {
      isDragging := true;
    }

    /** `handleDragLeave` */
    method HandleDragLeave()
      modifies this
      ensures !isDragging
      ensures photo == old(photo) && description == old(description) && date == old(date) && link == old(link)
      ensures calls == old(calls)
    {
      isDragging := false;
    }

    /** The hidden file input's `onChange`: the first chosen file, if any, is uploaded. */
    method HandleFileChosen(files: seq<File>)
      modifies this
      ensures photo == if files != [] && IsImage(files[0]) then files[0].dataUrl else old(photo)
      ensures description == old(description) && date == old(date) && link == old(link)
      ensures isDragging == old(isDragging) && calls == old(calls)
    {
      if files != [] {
        HandleFileUpload(files[0]);
      }
    }

    /** The button over the preview removes the photo. */
    method ClearPhoto()
      modifies this
      ensures photo == ""
      ensures description == old(description) && date == old(date) && link == old(link)
      ensures isDragging == old(isDragging) && calls == old(calls)
    {
      photo := "";
    }

    /** The description field's `onChange`. */
    method SetDescription(value: string)
      modifies this
      ensures description == value
      ensures photo == old(photo) && date == old(date) && link == old(link)
      ensures isDragging == old(isDragging) && calls == old(calls)
    {
      description := value;
    }

    /** The date field's `onChange`. */
    method SetDate(value: Date)
      modifies this
      ensures date == value
      ensures photo == old(photo) && description == old(description) && link == old(link)
      ensures isDragging == old(isDragging) && calls == old(calls)
    {
      date := value;
    }

    /** The link field's `onChange`. */
    method SetLink(value: string)
      modifies this
      ensures link == value
      ensures photo == old(photo) && description == old(description) && date == old(date)
      ensures isDragging == old(isDragging) && calls == old(calls)
    {
      link := value;
    }

    /**
     * `handleSubmit`: when the guard holds, hand the cleaned-up candidate to
     * `onAdd` and clear the form; otherwise do nothing at all.
     */
    method HandleSubmit(today: Date)
      modifies this
      ensures CanSubmit(old(photo), old(description)) ==>
        && calls == old(calls) + [Added(Payload(old(photo), old(description), old(date), old(link)))]
        && Cleared(today)
      ensures !CanSubmit(old(photo), old(description)) ==>
        && photo == old(photo) && description == old(description) && date == old(date) && link == old(link)
        && calls == old(calls)
      ensures isDragging == old(isDragging)
    {
      if CanSubmit(photo, description) {
        calls := calls + [Added(Payload(photo, description, date, link))];
        photo := "";
        description := "";
        date := today;
        link := "";
      }
    }

    /** `handleClose`: clear the form and call `onClose` once. */
    method HandleClose(today: Date)
      modifies this
      ensures Cleared(today)
      ensures calls == old(calls) + [Closed]
      ensures isDragging == old(isDragging)
    {
      photo := "";
      description := "";
      date := today;
      link := "";
      calls := calls + [Closed];
    }
  }

  /** After a successful submit the form is empty, so the button is disabled
      and a second submit sends nothing. */
  method SubmitTwice(photo: string, description: string, date: Date, link: string, today: Date)
    returns (calls: seq<ModalCall>, disabledAfter: bool)
    requires CanSubmit(photo, description)
    ensures calls == [Added(Payload(photo, description, date, link))]
    ensures disabledAfter
  {
    var modal := new AddEntryModal(today);
    modal.SetDescription(description);
    modal.SetDate(date);
    modal.SetLink(link);
    modal.HandleFileUpload(File("image/png", photo));
    assert modal.photo == photo && modal.description == description && modal.date == date && modal.link == link;
    assert modal.calls == [];
    modal.HandleSubmit(today);
    var sent := modal.calls;
    assert sent == [Added(Payload(photo, description, date, link))];
    disabledAfter := modal.ButtonDisabled();
    modal.HandleSubmit(today);
    calls := modal.calls;
  }

  /** A description of nothing but whitespace is never sent. */
  method BlankDescriptionNotSent(photo: string, description: string, today: Date)
    returns (calls: seq<ModalCall>)
    requires forall i :: 0 <= i < |description| ==> IsWhitespace(description[i])
    ensures calls == []
  {
    var modal := new AddEntryModal(today);
    modal.HandleFileUpload(File("image/jpeg", photo));
    modal.SetDescription(description);
    CanSubmitMeans(modal.photo, description);
    modal.HandleSubmit(today);
    calls := modal.calls;
  }

  /** A file whose type is not an image leaves the photo as it was. */
  method NonImageIgnored(file: File, today: Date) returns (photo: string)
    requires !StartsWith(file.mimeType, "image/")
    ensures photo == ""
  {
    var modal := new AddEntryModal(today);
    modal.HandleDragOver();
    modal.HandleDrop([file]);
    photo := modal.photo;
  }
}
