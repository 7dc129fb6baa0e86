/**
 * The private-space dialog: with an existing space it unlocks it; without one it creates one
 * from a password and its confirmation. It also offers to delete an existing space.
 */
module PrivateSpaceDialog {
  import opened Wrappers
  import opened NoteRegistry

  /** The shortest password a new private space accepts. */
  const MIN_PASSWORD_LENGTH: nat := 6

  /** How a submit ends. */
  datatype SubmitOutcome = Unlocked | WrongPassword | TooShort | Mismatch | Created

  /**
   * The submit decision: unlock when a space exists; otherwise check the length and then the
   * confirmation, in that order, before creating the space.
   */
  function Decide(spaceExists: bool, password: string, confirm: string, stored: string): (r: SubmitOutcome)
    ensures spaceExists ==> (r == Unlocked <==> password == stored) && (r == WrongPassword <==> password != stored)
    ensures !spaceExists ==> r != Unlocked && r != WrongPassword
  {
    if spaceExists then
      if password == stored then Unlocked else WrongPassword
    else if |password| < MIN_PASSWORD_LENGTH then TooShort
    else if password != confirm then Mismatch
    else Created
  }

  /** The error the dialog shows afterwards. */
  function ErrorMessage(r: SubmitOutcome): string
  {
    match r
    case WrongPassword => "Incorrect password"
    case TooShort => "Password must be at least 6 characters"
    case Mismatch => "Passwords do not match"
    case _ => ""
  }

  /** A space is created exactly when none exists and the password is long enough and confirmed. */
  lemma CreatedIffValid(spaceExists: bool, password: string, confirm: string, stored: string)
    ensures Decide(spaceExists, password, confirm, stored) == Created
            <==> !spaceExists && |password| >= MIN_PASSWORD_LENGTH && password == confirm
  {
  }

  /** The length is checked first: a short password is refused for its length even when the confirmation differs. */
  lemma LengthCheckedFirst(password: string, confirm: string, stored: string)
    requires |password| < MIN_PASSWORD_LENGTH
    ensures Decide(false, password, confirm, stored) == TooShort
    ensures ErrorMessage(Decide(false, password, confirm, stored)) == "Password must be at least 6 characters"
  {
  }

  /** A long enough password that differs from its confirmation is refused as a mismatch. */
  lemma MismatchRefused(password: string, confirm: string, stored: string)
    requires |password| >= MIN_PASSWORD_LENGTH && password != confirm
    ensures Decide(false, password, confirm, stored) == Mismatch
    ensures ErrorMessage(Decide(false, password, confirm, stored)) == "Passwords do not match"
  {
  }

  /**
   * The browser's check of the form's `required` inputs: the password always, its confirmation
   * only while creating a space. The submit handler runs only when it passes.
   */
  predicate FormComplete(spaceExists: bool, password: string, confirm: string)
  {
    password != "" && (spaceExists || confirm != "")
  }

  /**
   * Through a complete form the refusals concern real input: a wrong or short password is
   * non-empty, and a mismatch is against a confirmation that was typed.
   */
  lemma CompleteFormRefusals(spaceExists: bool, password: string, confirm: string, stored: string)
    requires FormComplete(spaceExists, password, confirm)
    ensures Decide(spaceExists, password, confirm, stored) == TooShort ==> 0 < |password| < MIN_PASSWORD_LENGTH
    ensures Decide(spaceExists, password, confirm, stored) == Mismatch ==> confirm != "" && password != confirm
    ensures Decide(spaceExists, password, confirm, stored) == WrongPassword ==> password != "" && password != stored
  {
  }

  class PrivateSpaceDialog {
    const store: NoteStore
    var password: string
    var confirmPassword: string
    var error: string
    var showDeleteConfirm: bool
    /** `false` once the dialog has asked its owner to close it. */
    var isOpen: bool

    constructor (store: NoteStore)
      ensures this.store == store
      ensures password == "" && confirmPassword == "" && error == "" && !showDeleteConfirm && isOpen
    {
      this.store := store;
      password, confirmPassword, error := "", "", "";
      showDeleteConfirm := false;
      isOpen := true;
    }

    /**
     * Submit: unlocks or creates the space as `Decide` says, shows the matching error, clears the
     * password after a wrong one, and closes the dialog on success. Nothing else changes.
     */
    method HandleSubmit() returns (r: SubmitOutcome)
      modifies this`error, this`password, this`isOpen
      modifies store`isPrivateSpaceUnlocked, store`showPrivateNotes, store`privateSpacePassword
      ensures r == Decide(old(store.PrivateSpaceExists()), old(password), confirmPassword, old(store.privateSpacePassword))
      ensures error == ErrorMessage(r)
      ensures r == Unlocked ==> store.isPrivateSpaceUnlocked && store.showPrivateNotes && !isOpen
      ensures r == WrongPassword ==> password == "" && isOpen == old(isOpen)
      ensures r == Created ==> store.privateSpacePassword == old(password) && store.isPrivateSpaceUnlocked && !isOpen
      ensures r == Created ==> store.showPrivateNotes == old(store.showPrivateNotes)
      ensures r != Created ==> store.privateSpacePassword == old(store.privateSpacePassword)
      ensures r != WrongPassword ==> password == old(password)
      ensures r != Unlocked && r != Created ==> isOpen == old(isOpen)
      ensures r != Unlocked && r != Created ==> store.isPrivateSpaceUnlocked == old(store.isPrivateSpaceUnlocked)
      ensures r != Unlocked && r != Created ==> store.showPrivateNotes == old(store.showPrivateNotes)
    {
      r := Decide(store.PrivateSpaceExists(), password, confirmPassword, store.privateSpacePassword);
      error := "";
      if store.PrivateSpaceExists() {
        var ok := store.UnlockPrivateSpace(password);
        if ok {
          isOpen := false;
        } else {
          error := "Incorrect password";
          password := "";
        }
      } else {
        if |password| < MIN_PASSWORD_LENGTH {
          error := "Password must be at least 6 characters";
          return;
        }
        if password != confirmPassword {
          error := "Passwords do not match";
          return;
        }
        store.SetupPrivateSpace(password);
        isOpen := false;
      }
    }

    /**
     * The form's submit: an empty required field stops it before the handler runs, and nothing
     * changes; otherwise the handler runs and its outcome is returned.
     */
    method SubmitForm() returns (r: Option<SubmitOutcome>)
      modifies this`error, this`password, this`isOpen
      modifies store`isPrivateSpaceUnlocked, store`showPrivateNotes, store`privateSpacePassword
      ensures r.None? <==> !FormComplete(old(store.PrivateSpaceExists()), old(password), confirmPassword)
      ensures r.None? ==> error == old(error) && password == old(password) && isOpen == old(isOpen)
      ensures r.None? ==> store.isPrivateSpaceUnlocked == old(store.isPrivateSpaceUnlocked)
                          && store.showPrivateNotes == old(store.showPrivateNotes)
                          && store.privateSpacePassword == old(store.privateSpacePassword)
      ensures r.Some? ==> r.value == Decide(old(store.PrivateSpaceExists()), old(password), confirmPassword, old(store.privateSpacePassword))
      ensures r.Some? ==> error == ErrorMessage(r.value)
      ensures r == Some(Unlocked) ==> store.isPrivateSpaceUnlocked && store.showPrivateNotes && !isOpen
      ensures r == Some(WrongPassword) ==> password == "" && isOpen == old(isOpen)
      ensures r == Some(Created) ==> store.privateSpacePassword == old(password) && store.isPrivateSpaceUnlocked && !isOpen
      ensures r == Some(Created) ==> store.showPrivateNotes == old(store.showPrivateNotes)
      ensures r.Some? && r.value != Created ==> store.privateSpacePassword == old(store.privateSpacePassword)
      ensures r.Some? && r.value != WrongPassword ==> password == old(password)
      ensures r.Some? && r.value != Unlocked && r.value != Created ==>
                isOpen == old(isOpen) && store.isPrivateSpaceUnlocked == old(store.isPrivateSpaceUnlocked)
                && store.showPrivateNotes == old(store.showPrivateNotes)
    {
      if !FormComplete(store.PrivateSpaceExists(), password, confirmPassword) {
        return None;
      }
      var outcome := HandleSubmit();
      r := Some(outcome);
    }

    /** Offered only while a space exists. */
    method AskToDelete()
      requires store.PrivateSpaceExists()
      modifies this`showDeleteConfirm
      ensures showDeleteConfirm
    {
      showDeleteConfirm := true;
    }

    method CancelDelete()
      modifies this`showDeleteConfirm
      ensures !showDeleteConfirm
    {
      showDeleteConfirm := false;
    }

    /** The confirmed delete: the private space and its notes go, and the dialog closes. */
    method HandleDelete()
      modifies store`notes, store`privateSpacePassword, store`isPrivateSpaceUnlocked, store`showPrivateNotes
      modifies this`showDeleteConfirm, this`isOpen
      ensures store.notes == RemovePrivateNotes(old(store.notes))
      ensures !store.PrivateSpaceExists() && !store.isPrivateSpaceUnlocked && !store.showPrivateNotes
      ensures !showDeleteConfirm && !isOpen
    {
      store.DeletePrivateSpace();
      showDeleteConfirm := false;
      isOpen := false;
    }

    /** Typing a password clears the error. */
    method OnPasswordChange(value: string)
      modifies this`password, this`error
      ensures password == value && error == ""
    {
      password := value;
      error := "";
    }

    method OnConfirmChange(value: string)
      modifies this`confirmPassword, this`error
      ensures confirmPassword == value && error == ""
    {
      confirmPassword := value;
      error := "";
    }
  }
}
