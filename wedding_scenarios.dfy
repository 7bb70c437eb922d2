/** Walk-throughs of the wedding model, each proved from the contracts of the
    operations alone. */
module WeddingScenarios {
  import opened Seqs
  import opened WeddingPlanning

  /** The opening both plus-one walk-throughs share: Amy and Ben's wedding
      invites Cho as a special guest, Cho accepts and invites Dee as plus-one. */
  method SpecialGuestWithPlusOne() returns (w: Wedding, cho: Guest)
    ensures fresh(w) && fresh(cho) && w.Valid()
    ensures w.brideName == "Amy" && w.groomName == "Ben"
    ensures cho.wedding == w && cho.isSpecial && cho.email == "cho@x.com"
    ensures Emails(w.invitationList) == ["cho@x.com", "dee@x.com"]
    ensures fresh(w.invitationList[0]) && fresh(w.invitationList[1])
    ensures w.invitationList[0].guest == cho && w.invitationList[0].status == Accepted
    ensures w.invitationList[1].status == Pending
    ensures w.invitationList[1].guest.invitingGuestEmail == None
    ensures w.confirmedGuestList == [cho]
    ensures cho.plusOne != null && fresh(cho.plusOne) && cho.plusOne.wedding == w
    ensures cho.plusOne.email == "dee@x.com" && cho.plusOne.invitingGuestEmail == Some("cho@x.com")
    ensures cho.plusOne != w.invitationList[1].guest
  {
    w := new Wedding("Amy", "Ben");
    w.SendInvitation("Cho", "cho@x.com", true);
    assert Emails(w.invitationList) == ["cho@x.com"];
    var found := w.GetGuestByEmail("cho@x.com");
    cho := found;
    cho.AcceptInvitation();
    assert w.confirmedGuestList == [cho];
    cho.InvitePlusOne("Dee", "dee@x.com");
    assert Emails(w.invitationList) == ["cho@x.com", "dee@x.com"];
  }

  /** A second plus-one is refused; the plus-one object accepts, then Cho
      uninvites it: only Cho stays confirmed and only Cho's invitation stays
      in the list, and a late answer from the uninvited plus-one changes
      nothing. */
  method PlusOneRoundTrip() returns (w: Wedding, cho: Guest, dee: Guest)
    ensures cho.email == "cho@x.com" && cho.plusOne == null
    ensures dee.email == "dee@x.com" && dee.invitingGuestEmail == Some("cho@x.com")
    ensures w.confirmedGuestList == [cho]
    ensures Emails(w.invitationList) == ["cho@x.com"] && w.invitationList[0].status == Accepted
  {
    w, cho := SpecialGuestWithPlusOne();
    dee := cho.plusOne;
    cho.InvitePlusOne("Fay", "fay@x.com");
    assert cho.plusOne == dee && Emails(w.invitationList) == ["cho@x.com", "dee@x.com"];
    IndexOfUnique(Emails(w.invitationList), "dee@x.com", 1);
    dee.AcceptInvitation();
    // The plus-one object is confirmed, and the invitation it answered is
    // the one sent for its email.
    assert w.confirmedGuestList == [cho, dee];
    assert w.invitationList[1].status == Accepted;
    cho.UninvitePlusOne();
    assert Emails(w.invitationList) == ["cho@x.com"];
    dee.AcceptInvitation();
  }

  /** The invitation sent for a plus-one holds a different guest object from
      the special guest's `plusOne`. When that invitation's guest accepts,
      uninviting the plus-one deletes the invitation but cannot find that
      guest on the confirmed list, so it stays confirmed with no invitation. */
  method StaleConfirmation() returns (w: Wedding, cho: Guest, invited: Guest)
    ensures cho.email == "cho@x.com" && cho.plusOne == null
    ensures invited.email == "dee@x.com" && invited.invitingGuestEmail == None
    ensures w.confirmedGuestList == [cho, invited]
    ensures Emails(w.invitationList) == ["cho@x.com"]
  {
    w, cho := SpecialGuestWithPlusOne();
    invited := w.invitationList[1].guest;
    IndexOfUnique(Emails(w.invitationList), "dee@x.com", 1);
    invited.AcceptInvitation();
    assert w.confirmedGuestList == [cho, invited];
    cho.UninvitePlusOne();
  }

  /** Answers can change freely: accept, decline, accept leaves the
      invitation accepted and the guest confirmed exactly once, and accepting
      twice confirms the guest once. */
  method ChangeOfMind() returns (w: Wedding, guest: Guest)
    ensures |w.invitationList| == 1 && w.invitationList[0].status == Accepted
    ensures w.confirmedGuestList == [guest]
    ensures multiset(w.confirmedGuestList)[guest] == 1
  {
    w := new Wedding("Amy", "Ben");
    w.SendInvitation("Eve", "eve@x.com");
    assert Emails(w.invitationList) == ["eve@x.com"];
    var found := w.GetGuestByEmail("eve@x.com");
    guest := found;
    guest.AcceptInvitation();
    guest.DeclineInvitation();
    assert w.confirmedGuestList == [];
    assert w.invitationList[0].status == Declined;
    guest.AcceptInvitation();
    guest.AcceptInvitation();
  }
}
