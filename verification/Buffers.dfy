/** Text copied into a character buffer of fixed size, as `strncpy` with a closing NUL leaves it
    for whoever reads it as a C string. */
module Buffers {

  function UpToNul(text: string): string {
    if text == "" || text[0] == '\0' then "" else [text[0]] + UpToNul(text[1..])
  }

  /** What is read back: cut at the first NUL and to leave room for one. */
  function Copied(text: string, size: nat): string
    requires size > 0
  {
    var s := UpToNul(text);
    if |s| < size then s else s[..size - 1]
  }

  lemma {:induction false} UpToNulIs(text: string)
    ensures UpToNul(text) <= text && '\0' !in UpToNul(text)
    ensures |UpToNul(text)| < |text| ==> text[|UpToNul(text)|] == '\0'
  {
    if text == "" || text[0] == '\0' {
    } else {
      UpToNulIs(text[1..]);
      assert text == [text[0]] + text[1..];
    }
  }

  /** A beginning of the text without a NUL that fits, and the longest there is. */
  lemma CopiedIs(text: string, size: nat)
    requires size > 0
    ensures var s := Copied(text, size);
            && s <= text && '\0' !in s && |s| < size
            && (|s| < |text| ==> |s| == size - 1 || text[|s|] == '\0')
    ensures Copied(text, size) == text <==> '\0' !in text && |text| < size
  {
    UpToNulIs(text);
    hide UpToNul;
    assert Copied(text, size) <= UpToNul(text);
  }
}
