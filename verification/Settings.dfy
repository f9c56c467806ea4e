/** Texts kept in settings, as app/src/sreg.c and app/src/zb_core.c save and load them. */
module Settings {
  import opened Wrappers
  import opened CText

  /** The bytes saved: the text with its terminator. */
  function Stored(text: string): string {
    text + "\0"
  }

  /** What a load callback with a buffer of `size` bytes makes of them; a value that does not fit is ignored. */
  function Loaded(bytes: string, size: nat): Option<string> {
    if bytes == "" || |bytes| > size then None else Some(CString(bytes[..|bytes| - 1] + "\0"))
  }

  lemma StoredRoundTrip(text: string, size: nat)
    requires '\0' !in text && |text| < size
    ensures Loaded(Stored(text), size) == Some(text)
  {
    var bytes := Stored(text);
    assert bytes[..|bytes| - 1] == text;
    CStringOfTerminated(text, "");
    assert text + "\0" + "" == text + "\0";
  }
}
