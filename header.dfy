/**
 * The page header (components/Header.tsx): the shop logo, loaded from
 * storage when the header mounts and replaced by an upload that passes the
 * size cap. The storage object is the one the application shares.
 */
module Header {
  import opened Wrappers
  import opened LocalStorage
  import opened GeminiService

  const LogoKey := "canKuruyemisLogo"
  /** The largest encoded logo accepted, in characters. */
  const MaxLogoLength := 3000000

  /** How an upload ends: no file chosen, the reader failed, the size alert, or the logo stored. */
  datatype UploadOutcome = NoFile | ReadFailed | TooLarge | Stored

  class LogoState {
    var logo: Option<string>
    const store: Store

    /** The first render: no logo shown yet. */
    constructor (store: Store)
      ensures this.store == store && logo == None
    {
      this.store := store;
      logo := None;
    }

    /** The mount effect: show the stored logo if there is a non-empty one. */
    method Mount()
      modifies this
      ensures Truthy(store.GetItem(LogoKey)) ==> logo == store.GetItem(LogoKey)
      ensures !Truthy(store.GetItem(LogoKey)) ==> logo == old(logo)
    {
      var savedLogo := store.GetItem(LogoKey);
      if Truthy(savedLogo) {
        logo := savedLogo;
      }
    }

    /**
     * `handleLogoUpload`: the first chosen file is read as a data URL; one
     * longer than the cap is refused with an alert, any other becomes both
     * the shown logo and the stored one. A failed read ends the callback
     * before anything changes.
     */
    method HandleLogoUpload(files: seq<File>) returns (outcome: UploadOutcome)
      modifies this, store
      ensures |files| == 0 <==> outcome == NoFile
      ensures |files| > 0 ==> (outcome == ReadFailed <==> files[0].dataUrl.None?)
      ensures outcome == TooLarge <==> |files| > 0 && files[0].dataUrl.Some? && |files[0].dataUrl.value| > MaxLogoLength
      ensures outcome == Stored <==> |files| > 0 && files[0].dataUrl.Some? && |files[0].dataUrl.value| <= MaxLogoLength
      ensures outcome == Stored ==> logo == files[0].dataUrl && store.entries == old(store.entries)[LogoKey := logo.value]
      ensures outcome != Stored ==> logo == old(logo) && store.entries == old(store.entries)
    {
      if |files| == 0 {
        return NoFile;
      }
      var file := files[0];
      if file.dataUrl.None? {
        return ReadFailed;
      }
      var base64String := file.dataUrl.value;
      if |base64String| > MaxLogoLength {
        return TooLarge;
      }
      logo := Some(base64String);
      store.SetItem(LogoKey, base64String);
      return Stored;
    }
  }
}
