/**
 * The public name of a user as shown in listings: the display name, or
 * first and last name according to the last-name visibility setting.
 */
module UsersService {
  import opened Common

  /** `(v ?? '').trim()`. */
  function TrimmedOrEmpty(v: Option<string>): (r: string)
    ensures IsTrimmed(r)
    ensures v.None? ==> r == ""
  {
    if v.None? then "" else TrimShape(v.value); Trim(v.value)
  }

  /** `buildPublicName(displayName, fn, ln, vis)`. */
  function BuildPublicName(displayName: string, fn: Option<string>, ln: Option<string>, vis: Option<string>): (r: string)
    ensures TrimmedOrEmpty(fn) == "" && TrimmedOrEmpty(ln) == "" ==> r == displayName
  {
    var firstName := TrimmedOrEmpty(fn);
    var lastName := TrimmedOrEmpty(ln);
    if firstName == "" && lastName == "" then displayName
    else if vis == Some("HIDDEN") then (if firstName != "" then firstName else displayName)
    else if vis == Some("INITIAL") then
      (if lastName != "" then Trim(firstName + " " + [ToUpperChar(lastName[0])] + ".")
       else if firstName != "" then firstName else displayName)
    else Trim(firstName + " " + lastName)
  }

  /** Under HIDDEN only the first name is shown, or the display name when there is none. */
  lemma PublicNameHidden(displayName: string, fn: Option<string>, ln: Option<string>)
    ensures BuildPublicName(displayName, fn, ln, Some("HIDDEN")) ==
      if TrimmedOrEmpty(fn) != "" then TrimmedOrEmpty(fn) else displayName
  {
  }

  /** Under INITIAL a last name is shortened to its upper-cased first letter and a dot. */
  lemma PublicNameInitial(displayName: string, fn: Option<string>, ln: Option<string>)
    ensures var f := TrimmedOrEmpty(fn);
      var l := TrimmedOrEmpty(ln);
      BuildPublicName(displayName, fn, ln, Some("INITIAL")) ==
        if l == "" then (if f != "" then f else displayName)
        else if f == "" then [ToUpperChar(l[0])] + "."
        else f + " " + [ToUpperChar(l[0])] + "."
  {
    var f := TrimmedOrEmpty(fn);
    var l := TrimmedOrEmpty(ln);
    if l != "" {
      var tail := [ToUpperChar(l[0])] + ".";
      assert f + " " + [ToUpperChar(l[0])] + "." == f + " " + tail;
      JoinTrimmed(f, tail);
    }
  }

  /** Otherwise (FULL, null or any other value) the two names are joined by one space. */
  lemma PublicNameFull(displayName: string, fn: Option<string>, ln: Option<string>, vis: Option<string>)
    requires vis != Some("HIDDEN") && vis != Some("INITIAL")
    ensures var f := TrimmedOrEmpty(fn);
      var l := TrimmedOrEmpty(ln);
      BuildPublicName(displayName, fn, ln, vis) ==
        if f == "" && l == "" then displayName
        else if f == "" then l
        else if l == "" then f
        else f + " " + l
  {
    var f := TrimmedOrEmpty(fn);
    var l := TrimmedOrEmpty(ln);
    if f != "" || l != "" {
      JoinTrimmed(f, l);
    }
  }

  /** A name is never empty when the display name is not. */
  lemma PublicNameNonEmpty(displayName: string, fn: Option<string>, ln: Option<string>, vis: Option<string>)
    requires displayName != ""
    ensures BuildPublicName(displayName, fn, ln, vis) != ""
  {
    var f := TrimmedOrEmpty(fn);
    var l := TrimmedOrEmpty(ln);
    if vis == Some("INITIAL") {
      PublicNameInitial(displayName, fn, ln);
    } else if vis != Some("HIDDEN") {
      PublicNameFull(displayName, fn, ln, vis);
    }
  }

  /** `${a} ${b}`.trim() for two trimmed parts, at least one of them non-empty. */
  lemma JoinTrimmed(a: string, b: string)
    requires IsTrimmed(a) && IsTrimmed(b) && (a != "" || b != "")
    ensures Trim(a + " " + b) == if a == "" then b else if b == "" then a else a + " " + b
  {
    if a == "" {
      assert a + " " + b == " " + b + "";
      TrimSurrounding(" ", b, "");
      TrimOfTrimmed(b);
    } else if b == "" {
      assert a + " " + b == "" + a + " ";
      TrimSurrounding("", a, " ");
      TrimOfTrimmed(a);
    } else {
      var s := a + " " + b;
      assert s[0] == a[0] && s[|s| - 1] == b[|b| - 1];
      TrimOfTrimmed(s);
    }
  }
}
