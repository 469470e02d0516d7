/**
 * The small display helpers the issue card, the issue page, the comment list, the user list
 * and the map popup repeat inline: avatar initials, the author-name fallback, the signed net
 * vote count, the status label, and the highlighting of the two vote buttons.
 */
module Display {
  import opened Domain
  import opened Text

  /** `parts.map((n) => n[0]).join("")`: an empty part contributes `undefined`, which joins as nothing. */
  function FirstChars(parts: seq<string>): (r: string)
    ensures |r| <= |parts|
  {
    if parts == [] then ""
    else (if parts[0] != [] then [parts[0][0]] else []) + FirstChars(parts[1..])
  }

  /**
   * The reference reading of initials: the characters of `s` that begin a word, that is, are
   * not a space and come first or right after a space (`afterSpace` says what preceded `s`).
   */
  function WordStarts(s: string, afterSpace: bool): string
  {
    if s == [] then ""
    else (if afterSpace && s[0] != ' ' then [s[0]] else []) + WordStarts(s[1..], s[0] == ' ')
  }

  predicate Blank(s: string)
  {
    forall i :: 0 <= i < |s| ==> s[i] == ' '
  }

  /** `name.split(" ").map((n) => n[0]).join("").toUpperCase()`, as the user list writes it. */
  function Initials(name: string): (r: string)
    ensures r == Upper(WordStarts(name, true))
    ensures r == [] <==> Blank(name)
  {
    InitialsAreWordStarts(name);
    NoWordStartIffBlank(name);
    Upper(FirstChars(Split(name, ' ')))
  }

  /** The same, with `?.` on a missing name and `|| "U"` on an empty result (card, page, comments). */
  function AvatarInitials(name: Option<string>): (r: string)
    ensures name.None? ==> r == "U"
    ensures name.Some? && Blank(name.value) ==> r == "U"
    ensures name.Some? && !Blank(name.value) ==> r == Upper(WordStarts(name.value, true)) && r != []
  {
    match name
    case None => "U"
    case Some(n) => var s := Initials(n); if s == "" then "U" else s
  }

  lemma {:induction false} InitialsAreWordStarts(s: string)
    ensures FirstChars(Split(s, ' ')) == WordStarts(s, true)
    ensures FirstChars(Split(s, ' ')[1..]) == WordStarts(s, false)
    decreases |s|
  {
    if s != [] {
      var rest := Split(s[1..], ' ');
      InitialsAreWordStarts(s[1..]);
      if s[0] == ' ' {
        assert Split(s, ' ') == [""] + rest;
        assert (([""] + rest)[1..]) == rest;
      } else {
        var parts := [[s[0]] + rest[0]] + rest[1..];
        assert Split(s, ' ') == parts;
        assert parts[1..] == rest[1..];
      }
    }
  }

  /** A name has no word start exactly when it is empty or only spaces. */
  lemma NoWordStartIffBlank(s: string)
    ensures WordStarts(s, true) == [] <==> Blank(s)
  {
    if Blank(s) {
      BlankHasNoWordStart(s);
    } else {
      WordStartOfNonBlank(s);
    }
  }

  lemma {:induction false} BlankHasNoWordStart(s: string)
    requires Blank(s)
    ensures WordStarts(s, true) == []
    decreases |s|
  {
    if s != [] {
      BlankHasNoWordStart(s[1..]);
    }
  }

  lemma {:induction false} WordStartOfNonBlank(s: string)
    requires !Blank(s)
    ensures WordStarts(s, true) != []
    decreases |s|
  {
    if s[0] == ' ' {
      var i :| 0 <= i < |s| && s[i] != ' ';
      assert s[1..][i - 1] == s[i];
      WordStartOfNonBlank(s[1..]);
    }
  }

  /** `profiles?.full_name || "Anonymous"`: a missing or empty name shows "Anonymous". */
  function AuthorName(name: Option<string>): (r: string)
    ensures name.Some? && name.value != "" ==> r == name.value
    ensures name.None? || name.value == "" ==> r == "Anonymous"
  {
    match name
    case Some(n) => if n != "" then n else "Anonymous"
    case None => "Anonymous"
  }

  /** `vote_count > 0 ? \`+${vote_count}\` : vote_count`. */
  function NetDisplay(n: int): (r: string)
    ensures |r| >= 1 && (r[0] == '+' <==> n > 0)
    ensures n <= 0 ==> r == IntToString(n)
    ensures ParseInt(r) == Some(n)
  {
    IntToStringRoundTrip(n);
    if n > 0 then
      assert ("+" + IntToString(n))[1..] == IntToString(n);
      "+" + IntToString(n)
    else IntToString(n)
  }

  /** `status.replace("_", " ")`: the badge and popup label of a status. */
  function StatusLabel(status: string): (r: string)
    ensures |r| == |status|
    ensures IndexOf(status, '_') == |status| ==> r == status
    ensures IndexOf(status, '_') < |status| ==>
      r == status[..IndexOf(status, '_')] + " " + status[IndexOf(status, '_') + 1..]
  {
    ReplaceFirst(status, '_', ' ')
  }

  /** Only the first underscore is replaced: "a_b_c" is labelled "a b_c". */
  lemma StatusLabelFirstOnly()
    ensures StatusLabel("a_b_c") == "a b_c"
  {
    var t := "a_b_c";
    assert IndexOf(t, '_') == 1;
    assert t[..1] == "a" && t[2..] == "b_c";
  }

  /** The `variant` prop of the UI kit's button. */
  datatype ButtonVariant = Default | Destructive | Outline | Ghost

  /**
   * The variant of the button for `kind`: highlighted ("default" for upvote, "destructive" for
   * downvote) when it is the caller's vote, else `idle` ("ghost" on the card, "outline" on the page).
   */
  function VoteButton(userVote: Option<VoteKind>, kind: VoteKind, idle: ButtonVariant): (v: ButtonVariant)
    requires idle == Ghost || idle == Outline
    ensures v != idle <==> userVote == Some(kind)
    ensures v == Default <==> userVote == Some(kind) && kind == Upvote
    ensures v == Destructive <==> userVote == Some(kind) && kind == Downvote
  {
    if userVote != Some(kind) then idle
    else match kind
      case Upvote => Default
      case Downvote => Destructive
  }

  /** The two vote buttons are never both highlighted. */
  lemma NeverBothHighlighted(userVote: Option<VoteKind>, idle: ButtonVariant)
    requires idle == Ghost || idle == Outline
    ensures VoteButton(userVote, Upvote, idle) == idle || VoteButton(userVote, Downvote, idle) == idle
  {
  }
}
