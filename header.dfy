/** The avatar initials in the page header. */
module Header {
  import opened Wrappers
  import opened Text

  /** `email.split('@')[0]`: the text before the first `@`, or the whole address. */
  function LocalPart(email: string): (name: string)
    ensures |name| <= |email| && name == email[..|name|] && '@' !in name
    ensures |name| < |email| ==> email[|name|] == '@'
    ensures '@' !in email ==> name == email
  {
    SplitHead(email, '@');
    Split(email, '@')[0]
  }

  /**
   * `initials`: "" without an address; otherwise the first two characters of the
   * local part (or all of it, when shorter), upper-cased.
   */
  function Initials(email: Option<string>): (r: string)
    ensures email.None? || email.value == "" ==> r == ""
    ensures |r| <= 2
    ensures email.Some? && email.value != "" ==>
      var name := LocalPart(email.value);
      && |r| == (if |name| < 2 then |name| else 2)
      && r == Upper(name[..|r|])
  {
    if email.None? || email.value == "" then ""
    else
      var name := LocalPart(email.value);
      Upper(if |name| < 2 then name else name[..2])
  }

  /** Only the local part matters: the domain never changes the initials. */
  lemma InitialsIgnoreDomain(local: string, domain1: string, domain2: string)
    requires '@' !in local
    ensures Initials(Some(local + "@" + domain1)) == Initials(Some(local + "@" + domain2))
  {
    SplitPrefix(local, domain1, '@');
    SplitPrefix(local, domain2, '@');
  }
}
