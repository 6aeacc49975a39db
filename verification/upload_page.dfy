/**
 The upload page: one slot for the face photo and one for the body photo,
 each filled through the file input and cleared through its remove button,
 and a continue button enabled only when both slots hold a photo.
 */
module UploadPage {
  import opened Types
  import opened AppContext
  import opened FileUpload

  datatype Slot = FaceSlot | BodySlot

  function SlotValue(s: TryOnSession, slot: Slot): Option<string> {
    match slot
    case FaceSlot => s.facePhoto
    case BodySlot => s.bodyPhoto
  }

  function OtherSlot(slot: Slot): Slot {
    match slot
    case FaceSlot => BodySlot
    case BodySlot => FaceSlot
  }

  /** `handleFaceUpload`: the face slot takes the new photo, the body slot keeps its own. */
  function HandleFaceUpload(s: TryOnSession, url: string): (r: TryOnSession)
    ensures r.facePhoto == Some(url) && r.bodyPhoto == s.bodyPhoto
    ensures r == UpdatePhotos(s, r.facePhoto, r.bodyPhoto)
  {
    UpdatePhotos(s, Some(url), s.bodyPhoto)
  }

  /** `handleBodyUpload`: the body slot takes the new photo, the face slot keeps its own. */
  function HandleBodyUpload(s: TryOnSession, url: string): (r: TryOnSession)
    ensures r.bodyPhoto == Some(url) && r.facePhoto == s.facePhoto
    ensures r == UpdatePhotos(s, r.facePhoto, r.bodyPhoto)
  {
    UpdatePhotos(s, s.facePhoto, Some(url))
  }

  /** `handleFaceRemove` and `handleBodyRemove`: that slot becomes null, the other is kept. */
  function HandleRemove(s: TryOnSession, slot: Slot): (r: TryOnSession)
    ensures SlotValue(r, slot).None?
    ensures SlotValue(r, OtherSlot(slot)) == SlotValue(s, OtherSlot(slot))
    ensures r == UpdatePhotos(s, r.facePhoto, r.bodyPhoto)
  {
    match slot
    case FaceSlot => UpdatePhotos(s, None, s.bodyPhoto)
    case BodySlot => UpdatePhotos(s, s.facePhoto, None)
  }

  /**
   A file chosen in a slot's input: a rejected file or no file leaves the
   session as it was; an accepted one fills that slot with its data URL.
   */
  function ChooseFile(s: TryOnSession, slot: Slot, choice: FileChoice): (r: TryOnSession)
    ensures SlotValue(r, OtherSlot(slot)) == SlotValue(s, OtherSlot(slot))
    ensures HandleFileChange(choice).None? ==> r == s
    ensures HandleFileChange(choice).Some? ==> SlotValue(r, slot) == Some(choice.dataUrl)
    ensures r == UpdatePhotos(s, r.facePhoto, r.bodyPhoto)
  {
    match HandleFileChange(choice)
    case None => s
    case Some(url) =>
      match slot
      case FaceSlot => HandleFaceUpload(s, url)
      case BodySlot => HandleBodyUpload(s, url)
  }

  /** `canContinue`: both photos are truthy (null and "" both count as missing). */
  predicate CanContinue(s: TryOnSession) {
    IsTruthyText(s.facePhoto) && IsTruthyText(s.bodyPhoto)
  }

  /** The continue button: to the products step when enabled, otherwise nothing happens. */
  function Continue(st: AppState): (r: AppState)
    ensures r.session == st.session
    ensures r.currentStep == Products <==> CanContinue(st.session) || st.currentStep == Products
    ensures !CanContinue(st.session) ==> r == st
  {
    if CanContinue(st.session) then SetStep(st, Products) else st
  }

  // ---------------------------------------------------------------------------
  // The two file reads racing

  /**
   A read completing as the page delivers it: the handler was created when
   the file was chosen, so it writes back the other slot as it was in the
   session `captured` then, not as it is now.
   */
  function DeliverCaptured(current: TryOnSession, captured: TryOnSession, slot: Slot, url: string): (r: TryOnSession)
    ensures SlotValue(r, slot) == Some(url)
    ensures SlotValue(r, OtherSlot(slot)) == SlotValue(captured, OtherSlot(slot))
  {
    match slot
    case FaceSlot => UpdatePhotos(current, Some(url), captured.bodyPhoto)
    case BodySlot => UpdatePhotos(current, captured.facePhoto, Some(url))
  }

  /**
   Both files chosen while both slots were empty, the face read finishing
   first: the body read's completion writes the stale empty face slot back,
   and the face photo is lost.
   */
  lemma CapturedDeliveryLosesFacePhoto(face: string, body: string)
    ensures var s0 := DefaultSession();
      var s1 := DeliverCaptured(s0, s0, FaceSlot, face);
      var s2 := DeliverCaptured(s1, s0, BodySlot, body);
      s1.facePhoto == Some(face) && s2.facePhoto.None? && s2.bodyPhoto == Some(body)
  {
  }

  /**
   A face file chosen while the body slot held a photo, and that photo removed
   before the face read finishes: the face read's completion writes the
   captured body photo back, so the removed photo returns.
   */
  lemma RemovedPhotoComesBack(face: string, body: string)
    ensures var s0 := UpdatePhotos(DefaultSession(), None, Some(body));
      var s1 := HandleRemove(s0, BodySlot);
      var s2 := DeliverCaptured(s1, s0, FaceSlot, face);
      s1.bodyPhoto.None? && s2.facePhoto == Some(face) && s2.bodyPhoto == Some(body)
  {
  }

  /** A read completing against the session as it is when it completes. */
  function Deliver(current: TryOnSession, slot: Slot, url: string): (r: TryOnSession)
    ensures SlotValue(r, slot) == Some(url)
    ensures SlotValue(r, OtherSlot(slot)) == SlotValue(current, OtherSlot(slot))
  {
    match slot
    case FaceSlot => HandleFaceUpload(current, url)
    case BodySlot => HandleBodyUpload(current, url)
  }

  /** Against the current session, both photos survive in either completion order. */
  lemma DeliveriesKeepBothPhotos(s: TryOnSession, face: string, body: string)
    ensures var r := Deliver(Deliver(s, FaceSlot, face), BodySlot, body);
      r.facePhoto == Some(face) && r.bodyPhoto == Some(body)
    ensures Deliver(Deliver(s, FaceSlot, face), BodySlot, body)
         == Deliver(Deliver(s, BodySlot, body), FaceSlot, face)
  {
  }

  /** Against the current session, a photo removed while the other slot's read is pending stays removed. */
  lemma DeliveryKeepsRemoval(s: TryOnSession, slot: Slot, url: string)
    ensures var r := Deliver(HandleRemove(s, OtherSlot(slot)), slot, url);
      SlotValue(r, slot) == Some(url) && SlotValue(r, OtherSlot(slot)).None?
  {
  }
}
