/** `UserProfileMenu`: the short form of the signed-in principal, the avatar
    letter and the dropdown toggle. A missing principal or provider is `None`;
    an empty one is falsy in the same way. */
module ProfileMenu {
  import opened Wrappers
  import opened Strings

  /** `formatPrincipal`: nothing for a missing or empty principal, the first and
      last six characters around "..." for one longer than twelve, and the
      principal itself otherwise. */
  function FormatPrincipal(principal: Option<string>): (shown: string)
    ensures principal.None? || principal.value == [] ==> shown == []
    ensures principal.Some? && |principal.value| > 12 ==>
              var p := principal.value;
              && |shown| == 15
              && shown[..6] == p[..6]
              && shown[6..9] == "..."
              && shown[9..] == p[|p| - 6..]
    ensures principal.Some? && |principal.value| <= 12 ==> shown == principal.value
  {
    match principal
    case None => ""
    case Some(p) =>
      if p == [] then ""
      else if |p| > 12 then p[..6] + "..." + p[|p| - 6..]
      else p
  }

  /** The short form always begins with the principal's first characters, up
      to six of them. */
  lemma FormatKeepsPrefix(p: string)
    ensures var k := if |p| < 6 then |p| else 6; StartsWith(FormatPrincipal(Some(p)), p[..k])
  {
    var shown := FormatPrincipal(Some(p));
    if |p| > 12 {
      assert shown[..6] == p[..6];
    }
  }

  /** A principal of thirteen or fourteen characters comes out longer than it
      went in: the short form always has fifteen. */
  lemma ShortFormCanBeLonger(p: string)
    requires 13 <= |p| <= 14
    ensures |FormatPrincipal(Some(p))| > |p|
  {
  }

  /** The avatar letter: the provider's first character, or '?' when the
      provider is missing or empty. */
  function AvatarInitial(provider: Option<string>): (initial: char)
    ensures provider.Some? && provider.value != [] ==> initial == provider.value[0]
    ensures provider.None? || provider.value == [] ==> initial == '?'
  {
    if provider.Some? && provider.value != [] then provider.value[0] else '?'
  }

  class UserProfileMenu {
    var isMenuOpen: bool

    constructor ()
      ensures !isMenuOpen
    {
      isMenuOpen := false;
    }

    /** A click on the profile button opens a closed menu and closes an open
        one, so two clicks restore the state. */
    method Toggle()
      modifies this
      ensures isMenuOpen == !old(isMenuOpen)
    {
      isMenuOpen := !isMenuOpen;
    }
  }
}
