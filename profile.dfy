/** The citizen's profile page (pages/Profile.tsx): the saved profile, an
    editing copy that Save commits and Cancel abandons, the photo crop that
    feeds the editing copy, and the QR value built from the saved e-mail. */
module Profile {
  import opened Common
  import opened Auth
  import opened ShareQR

  datatype ProfileData = ProfileData(name: string, email: string, imageUrl: string)

  const QrPrefix := "civil-score-user:"

  /** The initial profile: the signed-in user's details, each falling back
      to a default when missing or empty. */
  function InitialProfile(user: Option<User>): (p: ProfileData)
    ensures p.name != [] && p.email != [] && p.imageUrl != []
    ensures user.Some? && user.value.name != [] ==> p.name == user.value.name
    ensures user.Some? && user.value.email != [] ==> p.email == user.value.email
    ensures user.Some? && user.value.imageUrl != [] ==> p.imageUrl == user.value.imageUrl
    ensures user.None? ==> p == ProfileData("Citizen User", "citizen@example.com", "https://picsum.photos/200")
  {
    ProfileData(OrElse(UserName(user), "Citizen User"), OrElse(UserEmail(user), "citizen@example.com"),
                OrElse(UserImageUrl(user), "https://picsum.photos/200"))
  }

  /** `qrValue`: the tag and the saved e-mail. */
  function QrValue(saved: ProfileData): (r: string)
    ensures QrPrefix <= r && r[|QrPrefix|..] == saved.email
  {
    QrPrefix + saved.email
  }

  /** The shared link of a profile whose e-mail has no `:` ends in the
      e-mail. */
  lemma SharedLinkIsEmail(saved: ProfileData)
    requires ':' !in saved.email
    ensures PublicProfileUrl(QrValue(saved)) == ProfileUrlPrefix + saved.email
  {
    UrlOfTaggedValue("civil-score-user", saved.email);
    assert QrValue(saved) == "civil-score-user" + ":" + saved.email;
  }

  /** An e-mail with a `:` is cut at its first `:` in the shared link. */
  lemma SharedLinkCutsEmail(saved: ProfileData, k: nat)
    requires k < |saved.email| && saved.email[k] == ':' && ':' !in saved.email[..k]
    ensures PublicProfileUrl(QrValue(saved)) == ProfileUrlPrefix + saved.email[..k]
  {
    UrlStopsAtSecondColon("civil-score-user", saved.email, k);
    assert QrValue(saved) == "civil-score-user" + ":" + saved.email;
  }

  class ProfilePage {
    var userProfile: ProfileData
    var editingProfile: ProfileData
    var isEditing: bool
    var isShareModalOpen: bool
    var isCropModalOpen: bool
    var imageToCrop: Option<string>

    constructor(user: Option<User>)
      ensures userProfile == InitialProfile(user) && editingProfile == userProfile
      ensures !isEditing && !isShareModalOpen && !isCropModalOpen && imageToCrop == None
    {
      userProfile := InitialProfile(user);
      editingProfile := InitialProfile(user);
      isEditing := false;
      isShareModalOpen := false;
      isCropModalOpen := false;
      imageToCrop := None;
    }

    /** The QR code and the share dialog show the saved profile, never the
        editing copy. */
    function Qr(): (r: string)
      reads this
      ensures r == QrValue(userProfile)
    {
      QrPrefix + userProfile.email
    }

    /** The banner photo: the editing copy's while editing. */
    function DisplayedImage(): string
      reads this
    {
      if isEditing then editingProfile.imageUrl else userProfile.imageUrl
    }

    /** `handleEditClick`: start from the saved profile. */
    method EditClick()
      modifies this`editingProfile, this`isEditing
      ensures editingProfile == userProfile && isEditing
    {
      editingProfile := userProfile;
      isEditing := true;
    }

    /** `handleCancelClick`: leave edit mode; the saved profile stays. */
    method CancelClick()
      modifies this`isEditing
      ensures !isEditing
    {
      isEditing := false;
    }

    /** `handleSaveClick`: the editing copy becomes the saved profile. */
    method SaveClick()
      modifies this`userProfile, this`isEditing
      ensures userProfile == editingProfile && !isEditing
    {
      userProfile := editingProfile;
      isEditing := false;
    }

    /** Typing a name into the edit form. */
    method EditName(value: string)
      modifies this`editingProfile
      ensures editingProfile == old(editingProfile).(name := value)
    {
      editingProfile := editingProfile.(name := value);
    }

    /** Typing an e-mail into the edit form. */
    method EditEmail(value: string)
      modifies this`editingProfile
      ensures editingProfile == old(editingProfile).(email := value)
    {
      editingProfile := editingProfile.(email := value);
    }

    /** The file reader of `handleFileChange` has produced a data URL: open
        the crop dialog on it. */
    method ImageLoaded(dataUrl: string)
      modifies this`imageToCrop, this`isCropModalOpen
      ensures imageToCrop == Some(dataUrl) && isCropModalOpen
    {
      imageToCrop := Some(dataUrl);
      isCropModalOpen := true;
    }

    /** `handleCropSave`: only the editing copy's photo changes; the dialog
        closes. */
    method CropSave(croppedImageUrl: string)
      modifies this`editingProfile, this`isCropModalOpen, this`imageToCrop
      ensures editingProfile == old(editingProfile).(imageUrl := croppedImageUrl)
      ensures !isCropModalOpen && imageToCrop == None
    {
      editingProfile := editingProfile.(imageUrl := croppedImageUrl);
      isCropModalOpen := false;
      imageToCrop := None;
    }

    /** The crop dialog's close button: the dialog closes, nothing else
        changes. */
    method CloseCrop()
      modifies this`isCropModalOpen
      ensures !isCropModalOpen
    {
      isCropModalOpen := false;
    }

    method OpenShare()
      modifies this`isShareModalOpen
      ensures isShareModalOpen
    {
      isShareModalOpen := true;
    }

    method CloseShare()
      modifies this`isShareModalOpen
      ensures !isShareModalOpen
    {
      isShareModalOpen := false;
    }

    /** The link the share dialog copies, if it is open. */
    method CopyLinkClicked() returns (link: Option<string>)
      ensures link == CopyLink(isShareModalOpen, QrValue(userProfile))
    {
      link := CopyLink(isShareModalOpen, Qr());
    }
  }
}
