/** The wedding guest and RSVP model: a Wedding owns the list of invitations
    (one per guest email) and the list of confirmed guests; guests answer their
    invitation through the wedding they belong to, and a special guest may
    invite, and later uninvite, one plus-one. */
module WeddingPlanning {
  import opened Seqs

  /** The three values an invitation's status takes. */
  datatype Status = Pending | Accepted | Declined

  /** The status as the text the system stores. */
  function StatusText(s: Status): (t: string)
    ensures t == "pending" || t == "accepted" || t == "declined"
  {
    match s
    case Pending => "pending"
    case Accepted => "accepted"
    case Declined => "declined"
  }

  /** Different statuses are stored as different texts. */
  lemma StatusTextInjective(a: Status, b: Status)
    ensures StatusText(a) == StatusText(b) <==> a == b
  {
    assert "pending"[0] != "accepted"[0] && "accepted"[0] != "declined"[0] && "pending"[0] != "declined"[0];
  }

  /** The guest emails of a list of invitations, in list order. */
  function Emails(invs: seq<Invitation>): seq<string>
  {
    seq(|invs|, i requires 0 <= i < |invs| => invs[i].guest.email)
  }

  /** Emails of a list with one entry taken out are the emails with that entry taken out. */
  lemma EmailsWithout(invs: seq<Invitation>, k: nat)
    requires k < |invs|
    ensures Emails(invs[..k] + invs[k + 1..]) == Emails(invs)[..k] + Emails(invs)[k + 1..]
  {
  }

  /** Invitations whose guest emails differ are different objects, so the
      first invitation carrying an email is also the first occurrence of that
      object in the list. */
  lemma FirstInvitation(invs: seq<Invitation>, email: string)
    requires email in Emails(invs)
    ensures var k := IndexOf(Emails(invs), email).value;
      k < |invs| && invs[k].guest.email == email && IndexOf(invs, invs[k]) == Some(k)
  {
    var k := IndexOf(Emails(invs), email).value;
    assert Emails(invs)[k] == email;
    forall j | 0 <= j < k ensures invs[j] != invs[k] {
      assert Emails(invs)[j] in Emails(invs)[..k];
    }
    IndexOfUnique(invs, invs[k], k);
  }

  /** Removing (as `list.remove` does) the first invitation carrying `email`
      from a list with distinct emails deletes exactly that entry and leaves
      the emails distinct and without `email`. */
  lemma RemoveInvitationEntry(invs: seq<Invitation>, email: string)
    requires NoDup(Emails(invs)) && email in Emails(invs)
    ensures var k := IndexOf(Emails(invs), email).value;
      var r := RemoveFirst(invs, invs[k]);
      k < |invs| && invs[k].guest.email == email &&
      r == invs[..k] + invs[k + 1..] &&
      NoDup(Emails(r)) && email !in Emails(r)
  {
    var k := IndexOf(Emails(invs), email).value;
    FirstInvitation(invs, email);
    var r := RemoveFirst(invs, invs[k]);
    assert r == invs[..k] + invs[k + 1..];
    EmailsWithout(invs, k);
    assert Emails(r) == RemoveFirst(Emails(invs), email);
    RemoveFirstNoDup(Emails(invs), email);
  }

  /** Invitations with pairwise distinct emails are pairwise distinct objects. */
  lemma DistinctInvitations(invs: seq<Invitation>)
    requires NoDup(Emails(invs))
    ensures NoDup(invs)
  {
    forall i, j | 0 <= i < j < |invs| ensures invs[i] != invs[j] {
      assert Emails(invs)[i] != Emails(invs)[j];
    }
  }

  class Wedding {
    const brideName: string
    const groomName: string
    /** Guests who have confirmed attendance, compared by object identity. */
    var confirmedGuestList: seq<Guest>
    /** Every invitation sent, in the order it was sent. */
    var invitationList: seq<Invitation>

    /** The wedding's invariant: one invitation per guest email, every
        invited guest belongs to this wedding, and no guest object is
        confirmed twice. */
    ghost predicate Valid()
      reads this
    {
      && NoDup(Emails(invitationList))
      && (forall i :: 0 <= i < |invitationList| ==> invitationList[i].guest.wedding == this)
      && NoDup(confirmedGuestList)
    }

    /** A valid wedding lists no invitation object twice. */
    lemma InvitationsDistinct()
      requires Valid()
      ensures NoDup(invitationList)
    {
      DistinctInvitations(invitationList);
    }

    constructor (brideName: string, groomName: string)
      ensures this.brideName == brideName && this.groomName == groomName
      ensures confirmedGuestList == [] && invitationList == []
      ensures Valid()
    {
      this.brideName := brideName;
      this.groomName := groomName;
      confirmedGuestList := [];
      invitationList := [];
    }

    /** Invites a new guest (a special guest when `isSpecial`), doing nothing
        when that email already has an invitation. */
    method SendInvitation(name: string, email: string, isSpecial: bool := false)
      requires Valid()
      modifies this
      ensures Valid()
      ensures confirmedGuestList == old(confirmedGuestList)
      ensures email in old(Emails(invitationList)) ==> invitationList == old(invitationList)
      ensures email !in old(Emails(invitationList)) ==>
        |invitationList| == |old(invitationList)| + 1 &&
        invitationList[..|old(invitationList)|] == old(invitationList) &&
        var inv := invitationList[|old(invitationList)|];
        fresh(inv) && fresh(inv.guest) && inv.status == Pending &&
        inv.guest.name == name && inv.guest.email == email &&
        inv.guest.wedding == this && inv.guest.isSpecial == isSpecial &&
        inv.guest.invitingGuestEmail == None && inv.guest.plusOne == null
    {
      var existing := GetGuestByEmail(email);
      if existing != null {
        return;
      }
      var guest: Guest;
      if isSpecial {
        guest := new Guest.Special(name, email, this);
      } else {
        guest := new Guest(name, email, this, None);
      }
      var invitation := new Invitation(guest);
      AppendNoDup(Emails(invitationList), email);
      assert Emails(invitationList + [invitation]) == Emails(invitationList) + [email];
      invitationList := invitationList + [invitation];
    }

    /** `invitation_list.remove(invitation)`: deletes the first occurrence of
        the invitation, which must be present. */
    method RemoveInvitation(invitation: Invitation)
      requires Valid() && invitation in invitationList
      modifies this
      ensures Valid()
      ensures confirmedGuestList == old(confirmedGuestList)
      ensures invitationList == RemoveFirst(old(invitationList), invitation)
      ensures invitation.guest.email !in Emails(invitationList)
    {
      var invs := invitationList;
      var k := IndexOf(invs, invitation).value;
      assert Emails(invs)[k] == invitation.guest.email;
      assert IndexOf(Emails(invs), invitation.guest.email) == Some(k);
      RemoveInvitationEntry(invs, invitation.guest.email);
      var r := invs[..k] + invs[k + 1..];
      assert r == RemoveFirst(invs, invitation);
      forall i | 0 <= i < |r| ensures r[i].guest.wedding == this {
        assert r[i] == invs[if i < k then i else i + 1];
      }
      invitationList := r;
    }

    /** `confirmed_guest_list.remove(guest)` behind a membership test: takes
        the guest object off the confirmed list if it is there. */
    method RemoveConfirmed(guest: Guest)
      requires Valid()
      modifies this
      ensures Valid()
      ensures invitationList == old(invitationList)
      ensures confirmedGuestList == RemoveFirst(old(confirmedGuestList), guest)
      ensures guest !in confirmedGuestList
    {
      RemoveFirstNoDup(confirmedGuestList, guest);
      if guest in confirmedGuestList {
        confirmedGuestList := RemoveFirst(confirmedGuestList, guest);
      }
    }

    /** The first invitation whose guest has this email, or null when there is none. */
    method RetrieveInvitation(email: string) returns (r: Invitation?)
      ensures r == null <==> email !in Emails(invitationList)
      ensures r != null ==> r == invitationList[IndexOf(Emails(invitationList), email).value]
    {
      var i := 0;
      while i < |invitationList|
        invariant 0 <= i <= |invitationList|
        invariant email !in Emails(invitationList)[..i]
      {
        if invitationList[i].guest.email == email {
          IndexOfUnique(Emails(invitationList), email, i);
          return invitationList[i];
        }
        assert Emails(invitationList)[..i + 1] == Emails(invitationList)[..i] + [invitationList[i].guest.email];
        i := i + 1;
      }
      assert Emails(invitationList)[..i] == Emails(invitationList);
      return null;
    }

    /** The guest of the first invitation with this email, or null when there is none. */
    method GetGuestByEmail(email: string) returns (g: Guest?)
      ensures g == null <==> email !in Emails(invitationList)
      ensures g != null ==> g == invitationList[IndexOf(Emails(invitationList), email).value].guest
    {
      var i := 0;
      while i < |invitationList|
        invariant 0 <= i <= |invitationList|
        invariant email !in Emails(invitationList)[..i]
      {
        if invitationList[i].guest.email == email {
          IndexOfUnique(Emails(invitationList), email, i);
          return invitationList[i].guest;
        }
        assert Emails(invitationList)[..i + 1] == Emails(invitationList)[..i] + [invitationList[i].guest.email];
        i := i + 1;
      }
      assert Emails(invitationList)[..i] == Emails(invitationList);
      return null;
    }
  }

  class Invitation {
    const guest: Guest
    var status: Status

    constructor (guest: Guest)
      ensures this.guest == guest && status == Pending && StatusText(status) == "pending"
    {
      this.guest := guest;
      status := Pending;
    }

    method Accept()
      modifies this
      ensures status == Accepted && StatusText(status) == "accepted"
    {
      status := Accepted;
    }

    method Decline()
      modifies this
      ensures status == Declined && StatusText(status) == "declined"
    {
      status := Declined;
    }
  }

  /** A guest; one built with the `Special` constructor is a special guest,
      the only kind that may invite a plus-one. */
  class Guest {
    const name: string
    const email: string
    const wedding: Wedding
    /** The email of the special guest who invited this guest as a plus-one. */
    const invitingGuestEmail: Option<string>
    const isSpecial: bool
    /** The plus-one a special guest has invited. Other guests start with null,
        and only the methods that require `isSpecial` set it. */
    var plusOne: Guest?

    constructor (name: string, email: string, wedding: Wedding, invitingGuestEmail: Option<string>)
      ensures this.name == name && this.email == email && this.wedding == wedding
      ensures this.invitingGuestEmail == invitingGuestEmail
      ensures !isSpecial && plusOne == null
    {
      this.name := name;
      this.email := email;
      this.wedding := wedding;
      this.invitingGuestEmail := invitingGuestEmail;
      isSpecial := false;
      plusOne := null;
    }

    constructor Special(name: string, email: string, wedding: Wedding)
      ensures this.name == name && this.email == email && this.wedding == wedding
      ensures invitingGuestEmail == None
      ensures isSpecial && plusOne == null
    {
      this.name := name;
      this.email := email;
      this.wedding := wedding;
      invitingGuestEmail := None;
      isSpecial := true;
      plusOne := null;
    }

    /** Accepts the invitation for this guest's email, if there is one, and
        confirms this guest object once. */
    method AcceptInvitation()
      requires wedding.Valid()
      modifies wedding, wedding.invitationList
      ensures wedding.Valid()
      ensures wedding.invitationList == old(wedding.invitationList)
      ensures email !in Emails(wedding.invitationList) ==>
        wedding.confirmedGuestList == old(wedding.confirmedGuestList) &&
        forall j :: 0 <= j < |wedding.invitationList| ==>
          wedding.invitationList[j].status == old(wedding.invitationList[j].status)
      ensures email in Emails(wedding.invitationList) ==>
        var k := IndexOf(Emails(wedding.invitationList), email).value;
        wedding.invitationList[k].status == Accepted &&
        (forall j :: 0 <= j < |wedding.invitationList| && j != k ==>
          wedding.invitationList[j].status == old(wedding.invitationList[j].status)) &&
        wedding.confirmedGuestList ==
          (if this in old(wedding.confirmedGuestList) then old(wedding.confirmedGuestList)
           else old(wedding.confirmedGuestList) + [this]) &&
        multiset(wedding.confirmedGuestList)[this] == 1
    {
      var invitation := wedding.RetrieveInvitation(email);
      if invitation != null {
        FirstInvitation(wedding.invitationList, email);
        wedding.InvitationsDistinct();
        invitation.Accept();
        if this !in wedding.confirmedGuestList {
          AppendNoDup(wedding.confirmedGuestList, this);
          wedding.confirmedGuestList := wedding.confirmedGuestList + [this];
        }
        NoDupCountOne(wedding.confirmedGuestList, this);
      }
    }

    /** Declines the invitation for this guest's email, if there is one, and
        takes this guest object off the confirmed list. */
    method DeclineInvitation()
      requires wedding.Valid()
      modifies wedding, wedding.invitationList
      ensures wedding.Valid()
      ensures wedding.invitationList == old(wedding.invitationList)
      ensures email !in Emails(wedding.invitationList) ==>
        wedding.confirmedGuestList == old(wedding.confirmedGuestList) &&
        forall j :: 0 <= j < |wedding.invitationList| ==>
          wedding.invitationList[j].status == old(wedding.invitationList[j].status)
      ensures email in Emails(wedding.invitationList) ==>
        var k := IndexOf(Emails(wedding.invitationList), email).value;
        wedding.invitationList[k].status == Declined &&
        (forall j :: 0 <= j < |wedding.invitationList| && j != k ==>
          wedding.invitationList[j].status == old(wedding.invitationList[j].status)) &&
        wedding.confirmedGuestList == RemoveFirst(old(wedding.confirmedGuestList), this) &&
        this !in wedding.confirmedGuestList
    {
      var invitation := wedding.RetrieveInvitation(email);
      if invitation != null {
        FirstInvitation(wedding.invitationList, email);
        wedding.InvitationsDistinct();
        invitation.Decline();
        wedding.RemoveConfirmed(this);
      }
    }

    /** A special guest invites a plus-one: nothing happens when a plus-one is
        already set or the email is already invited. Otherwise the plus-one is
        a new guest carrying this guest's email as its inviter, and the
        invitation sent for it holds a second, different guest object. */
    method InvitePlusOne(name: string, email: string)
      requires isSpecial && wedding.Valid()
      modifies this, wedding
      ensures wedding.Valid()
      ensures wedding.confirmedGuestList == old(wedding.confirmedGuestList)
      ensures old(plusOne) != null || email in old(Emails(wedding.invitationList)) ==>
        plusOne == old(plusOne) && wedding.invitationList == old(wedding.invitationList)
      ensures old(plusOne) == null && email !in old(Emails(wedding.invitationList)) ==>
        plusOne != null && fresh(plusOne) &&
        plusOne.name == name && plusOne.email == email && plusOne.wedding == wedding &&
        plusOne.invitingGuestEmail == Some(this.email) && !plusOne.isSpecial &&
        |wedding.invitationList| == |old(wedding.invitationList)| + 1 &&
        wedding.invitationList[..|old(wedding.invitationList)|] == old(wedding.invitationList) &&
        var inv := wedding.invitationList[|old(wedding.invitationList)|];
        fresh(inv) && inv.status == Pending && inv.guest != plusOne && inv.guest.wedding == wedding &&
        inv.guest.name == name && inv.guest.email == email &&
        inv.guest.invitingGuestEmail == None && !inv.guest.isSpecial
    {
      if plusOne != null {
        return;
      }
      var existing := wedding.GetGuestByEmail(email);
      if existing == null {
        plusOne := new Guest(name, email, wedding, Some(this.email));
        wedding.SendInvitation(name, email);
      }
    }

    /** A special guest uninvites its plus-one: the invitation for the
        plus-one's email is deleted, the plus-one object leaves the confirmed
        list, and the plus-one is cleared. Nothing happens without a plus-one.
        Python's `list.remove` raises when the invitation is missing, so its
        presence is required. */
    method UninvitePlusOne()
      requires isSpecial && wedding.Valid()
      requires plusOne != null ==> plusOne.email in Emails(wedding.invitationList)
      modifies this, wedding
      ensures wedding.Valid() && plusOne == null
      ensures unchanged(old(wedding.invitationList))
      ensures old(plusOne) == null ==>
        wedding.invitationList == old(wedding.invitationList) &&
        wedding.confirmedGuestList == old(wedding.confirmedGuestList)
      ensures old(plusOne) != null ==>
        var k := IndexOf(old(Emails(wedding.invitationList)), old(plusOne).email).value;
        wedding.invitationList == old(wedding.invitationList)[..k] + old(wedding.invitationList)[k + 1..] &&
        old(plusOne).email !in Emails(wedding.invitationList) &&
        wedding.confirmedGuestList == RemoveFirst(old(wedding.confirmedGuestList), old(plusOne)) &&
        old(plusOne) !in wedding.confirmedGuestList
    {
      if plusOne != null {
        var extra := plusOne;
        var invitation := wedding.RetrieveInvitation(extra.email);
        FirstInvitation(wedding.invitationList, extra.email);
        wedding.RemoveInvitation(invitation);
        wedding.RemoveConfirmed(extra);
        plusOne := null;
      }
    }
  }
}
