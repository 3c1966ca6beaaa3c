/** The share dialog (components/ShareQRModal.tsx): the public profile link
    it copies is built from the second `:`-separated piece of the QR value.
    The clipboard, the copied-state timer and the PNG download are not
    modelled. */
module ShareQR {
  import opened Common
  import opened Text

  const ProfileUrlPrefix := "https://example.com/civil-score/profile/"

  /** `` `${qrValue.split(':')[1]}` ``: the second piece, and the text
      "undefined" when there is none. */
  function SecondPiece(qrValue: string): string {
    var pieces := Split(qrValue, ':');
    if |pieces| >= 2 then pieces[1] else "undefined"
  }

  /** `publicProfileUrl` in `handleCopyLink`. */
  function PublicProfileUrl(qrValue: string): (r: string)
    ensures ProfileUrlPrefix <= r
  {
    ProfileUrlPrefix + SecondPiece(qrValue)
  }

  /** A value without any `:` has no second piece: the link ends in
      "undefined". */
  lemma UrlWithoutColon(qrValue: string)
    requires ':' !in qrValue
    ensures PublicProfileUrl(qrValue) == ProfileUrlPrefix + "undefined"
  {
    SplitNoSeparator(qrValue, ':');
  }

  /** The link the dialog can copy: none while it is closed, since nothing
      is rendered then. */
  function CopyLink(isOpen: bool, qrValue: string): (r: Option<string>)
    ensures r.None? <==> !isOpen
    ensures r.Some? ==> r.value == PublicProfileUrl(qrValue)
  {
    if !isOpen then None else Some(PublicProfileUrl(qrValue))
  }

  /** For a value `tag:e` whose tag and tail have no `:`, the link ends in
      the tail. */
  lemma UrlOfTaggedValue(tag: string, e: string)
    requires ':' !in tag && ':' !in e
    ensures PublicProfileUrl(tag + ":" + e) == ProfileUrlPrefix + e
  {
    SplitAfterHead(tag, ':', e);
    SplitNoSeparator(e, ':');
    assert tag + ":" + e == tag + [':'] + e;
  }

  /** When the tail has a `:` of its own, only the text before it reaches
      the link. */
  lemma UrlStopsAtSecondColon(tag: string, e: string, k: nat)
    requires ':' !in tag
    requires k < |e| && e[k] == ':' && ':' !in e[..k]
    ensures PublicProfileUrl(tag + ":" + e) == ProfileUrlPrefix + e[..k]
  {
    SplitAfterHead(tag, ':', e);
    SplitFirstPiece(e, ':', k);
    assert tag + ":" + e == tag + [':'] + e;
  }
}
