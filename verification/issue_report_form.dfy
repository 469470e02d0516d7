/**
 * The issue report form: seven text fields edited one at a time, an optional photo, and a
 * submit that uploads the photo under a timestamped file name and then inserts the issue row.
 * The store's answers (the upload's and the insert's errors, the photo's public URL) and the
 * clock are parameters.
 */
module IssueReportForm {
  import opened Domain
  import opened Text

  /** The keys of `formData`. */
  datatype FormField = Title | Description | Category | Priority | LocationAddress | Latitude | Longitude

  datatype FormData = FormData(
    title: string,
    description: string,
    category: string,
    priority: string,
    locationAddress: string,
    latitude: string,
    longitude: string)

  /** The form as first shown: everything empty except the "medium" priority. */
  const Initial := FormData("", "", "", "medium", "", "", "")

  function Get(d: FormData, f: FormField): string
  {
    match f
    case Title => d.title
    case Description => d.description
    case Category => d.category
    case Priority => d.priority
    case LocationAddress => d.locationAddress
    case Latitude => d.latitude
    case Longitude => d.longitude
  }

  /** `{ ...prev, [field]: value }`: the one field takes the value, every other keeps its own. */
  function WithField(d: FormData, f: FormField, value: string): (r: FormData)
    ensures Get(r, f) == value
    ensures forall g :: g != f ==> Get(r, g) == Get(d, g)
  {
    match f
    case Title => d.(title := value)
    case Description => d.(description := value)
    case Category => d.(category := value)
    case Priority => d.(priority := value)
    case LocationAddress => d.(locationAddress := value)
    case Latitude => d.(latitude := value)
    case Longitude => d.(longitude := value)
  }

  /** Records are equal when they agree on every field. */
  lemma FormDataExt(a: FormData, b: FormData)
    requires forall f :: Get(a, f) == Get(b, f)
    ensures a == b
  {
    assert Get(a, Title) == Get(b, Title) && Get(a, Description) == Get(b, Description);
    assert Get(a, Category) == Get(b, Category) && Get(a, Priority) == Get(b, Priority);
    assert Get(a, LocationAddress) == Get(b, LocationAddress);
    assert Get(a, Latitude) == Get(b, Latitude) && Get(a, Longitude) == Get(b, Longitude);
  }

  /** Edits of two different fields commute. */
  lemma EditsCommute(d: FormData, f: FormField, v: string, g: FormField, w: string)
    requires f != g
    ensures WithField(WithField(d, f, v), g, w) == WithField(WithField(d, g, w), f, v)
  {
    FormDataExt(WithField(WithField(d, f, v), g, w), WithField(WithField(d, g, w), f, v));
  }

  /** A second edit of the same field replaces the first. */
  lemma LastEditWins(d: FormData, f: FormField, v: string, w: string)
    ensures WithField(WithField(d, f, v), f, w) == WithField(d, f, w)
  {
    FormDataExt(WithField(WithField(d, f, v), f, w), WithField(d, f, w));
  }

  /**
   * The browser's `required` check: the form is submitted only with a title, a description
   * and an address. The category select is not required.
   */
  predicate RequiredFilled(d: FormData)
  {
    d.title != "" && d.description != "" && d.locationAddress != ""
  }

  /**
   * The category is not required: filling the title, the description and the address is
   * enough, while the untouched form is held back.
   */
  lemma CategoryNotRequired(title: string, description: string, address: string)
    ensures !RequiredFilled(Initial)
    ensures var d := WithField(WithField(WithField(Initial, Title, title), Description, description), LocationAddress, address);
      RequiredFilled(d) <==> title != "" && description != "" && address != ""
    ensures var d := WithField(WithField(WithField(Initial, Title, title), Description, description), LocationAddress, address);
      d.category == ""
  {
  }

  /** `name.split(".").pop()`: what follows the last dot, or the whole name when there is none. */
  function Extension(name: string): (r: string)
    ensures '.' !in r
    ensures '.' !in name ==> r == name
    ensures '.' in name ==> |r| < |name| && name == name[..|name| - |r| - 1] + "." + r
  {
    var r := LastPart(name, '.');
    if '.' in name then LastPartSuffix(name, '.'); r else r
  }

  /** `${Date.now()}.${fileExt}`: the upload's file name, the clock's digits, a dot and the extension. */
  function FileName(now: nat, name: string): (r: string)
    ensures var k := |NatToString(now)|;
      k < |r| && r[k] == '.' && (forall i :: 0 <= i < k ==> IsDigit(r[i]))
      && DigitsValue(r[..k]) == now && r[k + 1..] == Extension(name)
  {
    var digits := NatToString(now);
    var r := digits + "." + Extension(name);
    assert r[..|digits|] == digits && r[|digits| + 1..] == Extension(name);
    DigitsValueOfNatToString(now);
    r
  }

  /**
   * The file name splits back at its first dot into the clock reading and the photo's
   * extension: two uploads at different milliseconds never share a name.
   */
  lemma FileNameParts(now: nat, name: string)
    ensures var f := FileName(now, name);
      var k := IndexOf(f, '.');
      k == |NatToString(now)| && k < |f| &&
      (forall i :: 0 <= i < k ==> IsDigit(f[i])) &&
      DigitsValue(f[..k]) == now && f[k + 1..] == Extension(name)
  {
    var digits := NatToString(now);
    var f := FileName(now, name);
    assert f[..|digits|] == digits;
    assert f[|digits|] == '.';
    assert '.' !in digits by {
      forall i | 0 <= i < |digits|
        ensures digits[i] != '.'
      {
        assert IsDigit(digits[i]);
      }
    }
    IndexOfFirst(f, '.', |digits|);
    DigitsValueOfNatToString(now);
    assert f[|digits| + 1..] == Extension(name);
  }

  /** `IndexOf` finds the first occurrence. */
  lemma IndexOfFirst(s: string, c: char, k: nat)
    requires k < |s| && s[k] == c && c !in s[..k]
    ensures IndexOf(s, c) == k
  {
    assert c in s;
  }

  /** Different clock readings give different file names. */
  lemma FileNamesDiffer(now1: nat, now2: nat, name1: string, name2: string)
    requires now1 != now2
    ensures FileName(now1, name1) != FileName(now2, name2)
  {
    FileNameParts(now1, name1);
    FileNameParts(now2, name2);
  }

  /** A photo named without a dot is uploaded with its whole name as the extension. */
  lemma DotlessNameKept(now: nat, name: string)
    requires '.' !in name
    ensures FileName(now, name) == NatToString(now) + "." + name
  {
  }

  /** `formData.latitude ? Number.parseFloat(formData.latitude) : null`, before the number is parsed. */
  function Coordinate(text: string): (r: Option<string>)
    ensures r.None? <==> text == ""
    ensures r.Some? ==> r.value == text
  {
    if text == "" then None else Some(text)
  }

  /** The row handed to the insert. */
  datatype NewIssue = NewIssue(
    title: string,
    description: string,
    category: string,
    priority: string,
    locationAddress: string,
    latitude: Option<string>,
    longitude: Option<string>,
    imageUrl: Option<string>,
    reporterId: string)

  /** The inserted row copies the form, adds the photo's URL and names the signed-in user as reporter. */
  function InsertRecord(d: FormData, imageUrl: Option<string>, userId: string): (r: NewIssue)
    ensures r.title == d.title && r.description == d.description && r.category == d.category
    ensures r.priority == d.priority && r.locationAddress == d.locationAddress
    ensures r.latitude.None? <==> d.latitude == ""
    ensures r.longitude.None? <==> d.longitude == ""
    ensures r.imageUrl == imageUrl && r.reporterId == userId
  {
    NewIssue(d.title, d.description, d.category, d.priority, d.locationAddress,
      Coordinate(d.latitude), Coordinate(d.longitude), imageUrl, userId)
  }

  /** An untouched category reaches the insert as the empty string. */
  lemma UnchosenCategorySent(d: FormData, imageUrl: Option<string>, userId: string)
    requires d == Initial.(title := d.title, description := d.description, locationAddress := d.locationAddress)
    ensures RequiredFilled(d) ==> InsertRecord(d, imageUrl, userId).category == ""
    ensures InsertRecord(d, imageUrl, userId).priority == "medium"
    ensures InsertRecord(d, imageUrl, userId).latitude.None?
  {
  }

  /** What was thrown: an `Error` carries its message; anything else is not an `Error`. */
  datatype Thrown = Thrown(isError: bool, message: string)

  /** The catch block's text. */
  function ErrorText(t: Thrown): (r: string)
    ensures t.isError ==> r == t.message
    ensures !t.isError ==> r == "An error occurred"
  {
    if t.isError then t.message else "An error occurred"
  }

  const UploadFailedMessage := "Failed to upload image"

  class IssueReportForm {
    const userId: string
    var formData: FormData
    /** The chosen photo's file name. */
    var imageFile: Option<string>
    var error: Option<string>
    var success: bool
    var isLoading: bool

    constructor (userId: string)
      ensures this.userId == userId && formData == Initial
      ensures imageFile == None && error == None && !success && !isLoading
    {
      this.userId := userId;
      formData := Initial;
      imageFile := None;
      error := None;
      success := false;
      isLoading := false;
    }

    method HandleInputChange(field: FormField, value: string)
      modifies this
      ensures formData == WithField(old(formData), field, value)
      ensures imageFile == old(imageFile) && error == old(error)
      ensures success == old(success) && isLoading == old(isLoading)
    {
      formData := WithField(formData, field, value);
    }

    /** `file` is the picker's first file, absent when nothing was chosen: the old choice then stays. */
    method HandleImageChange(file: Option<string>)
      modifies this
      ensures imageFile == if file.Some? then file else old(imageFile)
      ensures formData == old(formData) && error == old(error)
      ensures success == old(success) && isLoading == old(isLoading)
    {
      if file.Some? {
        imageFile := file;
      }
    }

    /** The position callback: both coordinates, as the text of the numbers, in one update. */
    method LocationReceived(latitude: string, longitude: string)
      modifies this
      ensures formData == old(formData).(latitude := latitude, longitude := longitude)
      ensures imageFile == old(imageFile) && error == old(error)
      ensures success == old(success) && isLoading == old(isLoading)
    {
      formData := WithField(WithField(formData, Latitude, latitude), Longitude, longitude);
      FormDataExt(formData, old(formData).(latitude := latitude, longitude := longitude));
    }

    /**
     * `handleSubmit`. `uploadFailed` is the storage's answer to the upload, `publicUrl` the URL
     * it gives the uploaded file, `insertError` what the insert threw. `uploaded` is the file
     * name sent to storage and `inserted` the row sent to the issues table, if any.
     */
    method HandleSubmit(now: nat, uploadFailed: bool, publicUrl: string, insertError: Option<Thrown>)
      returns (uploaded: Option<string>, inserted: Option<NewIssue>)
      modifies this
      ensures uploaded == if old(imageFile).Some? then Some(FileName(now, old(imageFile).value)) else None
      ensures old(imageFile).Some? && uploadFailed ==>
        inserted == None && error == Some(UploadFailedMessage) && success == old(success)
      ensures !(old(imageFile).Some? && uploadFailed) ==>
        inserted == Some(InsertRecord(old(formData), if old(imageFile).Some? then Some(publicUrl) else None, userId))
      ensures inserted.Some? && insertError.None? ==> success && error == None
      ensures inserted.Some? && insertError.Some? ==>
        error == Some(ErrorText(insertError.value)) && success == old(success)
      ensures !isLoading
      ensures formData == old(formData) && imageFile == old(imageFile)
    {
      isLoading := true;
      error := None;
      uploaded := None;
      inserted := None;
      var imageUrl: Option<string> := None;
      var thrown: Option<Thrown> := None;
      if imageFile.Some? {
        var fileName := FileName(now, imageFile.value);
        uploaded := Some(fileName);
        if uploadFailed {
          thrown := Some(Thrown(true, UploadFailedMessage));
        } else {
          imageUrl := Some(publicUrl);
        }
      }
      if thrown.None? {
        inserted := Some(InsertRecord(formData, imageUrl, userId));
        thrown := insertError;
      }
      if thrown.None? {
        success := true;
      } else {
        error := Some(ErrorText(thrown.value));
      }
      isLoading := false;
    }

    /**
     * Pressing the submit button: it is disabled while a submit is running, and the browser
     * holds back a form with an empty required field.
     */
    method SubmitClicked(now: nat, uploadFailed: bool, publicUrl: string, insertError: Option<Thrown>)
      returns (uploaded: Option<string>, inserted: Option<NewIssue>)
      modifies this
      ensures old(isLoading) || !RequiredFilled(old(formData)) ==>
        uploaded == None && inserted == None && error == old(error) && success == old(success)
      ensures inserted.Some? ==>
        inserted.value.title != "" && inserted.value.description != "" && inserted.value.locationAddress != ""
      ensures isLoading == old(isLoading) && formData == old(formData)
    {
      uploaded, inserted := None, None;
      if !isLoading && RequiredFilled(formData) {
        uploaded, inserted := HandleSubmit(now, uploadFailed, publicUrl, insertError);
      }
    }
  }
}
