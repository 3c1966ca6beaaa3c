/** The citizen sign-in page (pages/Login.tsx): the Aadhaar field shows the
    masked number, and a sign-in attempt clears the error, shows the busy
    state, calls the citizen sign-in with the bare digits, and reports a
    failure.  The half-second pause and the navigation after success are
    not modelled; the attempt is split at the pause into its two steps. */
module LoginPage {
  import opened Common
  import opened Text
  import opened Aadhaar
  import opened Auth

  const InvalidAadhaarMessage := "Invalid Aadhaar Number. Please try again."

  class Login {
    var aadhaar: string
    var error: string
    var isLoading: bool

    /** The field always holds a masked value. */
    ghost predicate Valid()
      reads this
    {
      FormatAadhaar(aadhaar) == aadhaar
    }

    constructor()
      ensures Valid() && aadhaar == "" && error == "" && !isLoading
    {
      aadhaar := "";
      error := "";
      isLoading := false;
      FormatAadhaarEmpty();
    }

    /** `handleChange`: the typed text is masked; the digits are kept. */
    method Type(value: string)
      modifies this`aadhaar
      ensures Valid()
      ensures aadhaar == FormatAadhaar(value)
      ensures RemoveWhitespace(aadhaar) == KeepDigits(value)
    {
      aadhaar := FormatAadhaar(value);
      FormatAadhaarIdempotent(value);
      FormatAadhaarStrips(value);
    }

    /** `handleLogin` up to the pause: the error is cleared and the page is
        busy. */
    method BeginLogin()
      modifies this`error, this`isLoading
      ensures error == "" && isLoading
    {
      error := "";
      isLoading := true;
    }

    /** `handleLogin` after the pause: sign in with the masked value's digits;
        on failure show the message; the page is no longer busy either way. */
    method CompleteLogin(auth: AuthSession) returns (success: bool)
      requires Valid()
      modifies this`error, this`isLoading, auth
      ensures success <==> FindCitizen(DummyUsers, KeepDigits(aadhaar)).Some?
      ensures success ==> auth.user == FindCitizen(DummyUsers, KeepDigits(aadhaar))
      ensures !success ==> auth.user == old(auth.user)
      ensures error == if success then old(error) else InvalidAadhaarMessage
      ensures !isLoading
    {
      FormatAadhaarStrips(aadhaar);
      success := auth.Login(RemoveWhitespace(aadhaar));
      if !success {
        error := InvalidAadhaarMessage;
      }
      isLoading := false;
    }
  }
}
