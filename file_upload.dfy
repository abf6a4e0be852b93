/** The upload widget's state (apk-tools-client/components/file-upload.tsx):
    the chosen file, whether the (simulated) upload is running, its progress
    and the error shown, with the validation that decides what is accepted. */
module FileUpload {
  import opened Wrappers
  import opened JsString
  import Seqs

  /** The `maxSize` prop's default, in MB. */
  const DEFAULT_MAX_SIZE_MB: nat := 100
  const NOT_APK_MESSAGE := "Only APK files are allowed"

  datatype File = File(name: string, size: nat)

  // ---------------------------------------------------------------- decimal text

  function Digit(d: nat): char
    requires d < 10
  {
    "0123456789"[d]
  }

  function DigitValue(c: char): nat {
    if '0' <= c <= '9' then c as nat - '0' as nat else 0
  }

  /** The number a string of decimal digits denotes. */
  function ValueOf(s: string): nat {
    if s == [] then 0 else 10 * ValueOf(s[..|s| - 1]) + DigitValue(s[|s| - 1])
  }

  /** `${n}` for a whole number: its decimal digits, without leading zeros. */
  function NatToString(n: nat): (s: string)
    ensures |s| >= 1
    ensures forall k :: 0 <= k < |s| ==> '0' <= s[k] <= '9'
    ensures n > 0 ==> s[0] != '0'
    decreases n
  {
    if n < 10 then [Digit(n)] else NatToString(n / 10) + [Digit(n % 10)]
  }

  /** The digits printed read back as the number. */
  lemma {:induction false} NatToStringValue(n: nat)
    ensures ValueOf(NatToString(n)) == n
    decreases n
  {
    if n >= 10 {
      var s, d := NatToString(n / 10), Digit(n % 10);
      Seqs.SnocTake(s, d);
      NatToStringValue(n / 10);
      assert DigitValue(d) == n % 10;
    }
  }

  /** The size-limit message for a limit of `maxSize` MB. */
  function TooLargeMessage(maxSize: nat): string {
    "File size exceeds " + NatToString(maxSize) + "MB limit"
  }

  // ---------------------------------------------------------------- validation

  /** What `validateFile` decides, with the error it sets (None when it sets none). */
  datatype Verdict = Accept | Reject(error: Option<string>)

  function Validate(file: Option<File>, maxSize: nat): (v: Verdict) {
    match file
    case None => Reject(None)
    case Some(f) =>
      if !EndsWith(f.name, ".apk") then Reject(Some(NOT_APK_MESSAGE))
      else if f.size > maxSize * 1024 * 1024 then Reject(Some(TooLargeMessage(maxSize)))
      else Accept
  }

  /** A file is accepted exactly when it is there, is named `*.apk` and is no
      larger than the limit, so a file exactly at the limit is accepted. The
      name is checked first: an oversized file with another name gets the
      name error. No file is rejected silently. */
  lemma ValidateCases(file: Option<File>, maxSize: nat)
    ensures Validate(file, maxSize) == Accept <==>
      file.Some? && EndsWith(file.value.name, ".apk") && file.value.size <= maxSize * 1048576
    ensures file.None? ==> Validate(file, maxSize) == Reject(None)
    ensures file.Some? && !EndsWith(file.value.name, ".apk") ==>
      Validate(file, maxSize) == Reject(Some("Only APK files are allowed"))
    ensures file.Some? && EndsWith(file.value.name, ".apk") && file.value.size > maxSize * 1048576 ==>
      Validate(file, maxSize) == Reject(Some(TooLargeMessage(maxSize)))
  {
  }

  /** The size message states the limit it applies, in MB. */
  lemma TooLargeMessageNamesLimit(maxSize: nat)
    ensures var m := TooLargeMessage(maxSize);
      var digits := m[|"File size exceeds "|..|m| - |"MB limit"|];
      ValueOf(digits) == maxSize
  {
    var m := TooLargeMessage(maxSize);
    assert m[|"File size exceeds "|..|m| - |"MB limit"|] == NatToString(maxSize);
    NatToStringValue(maxSize);
  }

  // ---------------------------------------------------------------- the widget

  class Uploader {
    /** The `maxSize` prop, in MB. */
    const maxSize: nat
    var internalFile: Option<File>
    var isUploading: bool
    var progress: nat
    var error: Option<string>

    /** The widget as mounted: no file, no upload, no error. */
    constructor (maxSize: nat)
      ensures this.maxSize == maxSize
      ensures internalFile.None? && !isUploading && progress == 0 && error.None?
    {
      this.maxSize := maxSize;
      internalFile := None;
      isUploading := false;
      progress := 0;
      error := None;
    }

    /** The widget mounted without a `maxSize` prop. */
    constructor Default()
      ensures maxSize == 100
      ensures internalFile.None? && !isUploading && progress == 0 && error.None?
    {
      maxSize := DEFAULT_MAX_SIZE_MB;
      internalFile := None;
      isUploading := false;
      progress := 0;
      error := None;
    }

    /** `validateFile`: sets the error of a rejected file, if it has one. */
    method ValidateFile(selected: Option<File>) returns (ok: bool)
      modifies this
      ensures ok <==> Validate(selected, maxSize) == Accept
      ensures error == (if Validate(selected, maxSize).Reject? && Validate(selected, maxSize).error.Some?
                        then Validate(selected, maxSize).error else old(error))
      ensures internalFile == old(internalFile) && isUploading == old(isUploading)
      ensures progress == old(progress)
    {
      if selected.None? {
        return false;
      }
      if !EndsWith(selected.value.name, ".apk") {
        error := Some(NOT_APK_MESSAGE);
        return false;
      }
      if selected.value.size > maxSize * 1024 * 1024 {
        error := Some(TooLargeMessage(maxSize));
        return false;
      }
      return true;
    }

    /** `handleFileChange`: the error is cleared first; an accepted file is
        taken and its upload starts from 0; a rejected one leaves the file,
        the upload and the progress as they were. */
    method HandleFileChange(selected: Option<File>)
      modifies this
      ensures error == (if Validate(selected, maxSize).Reject? then Validate(selected, maxSize).error else None)
      ensures Validate(selected, maxSize) == Accept ==>
        internalFile == selected && isUploading && progress == 0
      ensures Validate(selected, maxSize) != Accept ==>
        internalFile == old(internalFile) && isUploading == old(isUploading) && progress == old(progress)
    {
      error := None;
      if selected.None? {
        return;
      }
      var ok := ValidateFile(selected);
      if ok {
        internalFile := selected;
        isUploading := true;
        progress := 0;
      }
    }

    /** `handleRemoveFile`: no file, no progress, no upload; the error stays. */
    method HandleRemoveFile()
      modifies this
      ensures internalFile.None? && progress == 0 && !isUploading
      ensures error == old(error)
    {
      internalFile := None;
      progress := 0;
      isUploading := false;
    }
  }
}
