/** Validation of the zip code typed into the search box, and what pressing
    "Search" leads to before any lookup is made. */
module ZipCode {

  predicate IsDigit(c: char) { '0' <= c <= '9' }

  /** Every character is a digit (true of the empty string). */
  predicate DigitsOnly(s: string)
  {
    s == [] || (IsDigit(s[0]) && DigitsOnly(s[1..]))
  }

  /** `str.isdigit`: non-empty and made of digits only. */
  predicate IsDigitString(s: string)
  {
    |s| > 0 && DigitsOnly(s)
  }

  /** The guard that rejects a zip code: `len(zip) != 5 or not zip.isdigit()`. */
  predicate Rejected(zip: string)
  {
    |zip| != 5 || !IsDigitString(zip)
  }

  predicate ValidZip(zip: string)
  {
    |zip| == 5 && forall i :: 0 <= i < |zip| ==> IsDigit(zip[i])
  }

  lemma {:induction false} DigitsOnlyEverywhere(s: string)
    ensures DigitsOnly(s) <==> forall i :: 0 <= i < |s| ==> IsDigit(s[i])
  {
    if s != [] {
      DigitsOnlyEverywhere(s[1..]);
      assert forall i :: 0 < i < |s| ==> s[i] == s[1..][i - 1];
    }
  }

  /** A zip code passes the guard exactly when it has five characters, all digits. */
  lemma AcceptedIffValid(zip: string)
    ensures !Rejected(zip) <==> ValidZip(zip)
  {
    DigitsOnlyEverywhere(zip);
  }

  /** What the script does when it runs with the button state, the text box
      and whether an earlier search is stored in the session. */
  datatype SearchStart =
    | NoSearch             // no search starts: the button was not pressed, or it was
                           // pressed with an empty zip code while stored results are shown
    | EmptyZipWarning      // pressed with an empty zip code and nothing stored
    | InvalidZipError      // pressed with a zip code the guard rejects
    | Geocode(zip: string) // the zip code goes on to geocoding

  /** The empty-zip warning belongs to the `if` that shows stored results, so
      it appears only when no earlier search is stored. */
  function StartSearch(pressed: bool, zip: string, stored: bool): (r: SearchStart)
    ensures r.Geocode? <==> pressed && ValidZip(zip)
    ensures r.Geocode? ==> r.zip == zip
    ensures r == InvalidZipError <==> pressed && zip != [] && !ValidZip(zip)
    ensures r == EmptyZipWarning <==> pressed && zip == [] && !stored
    ensures r == NoSearch <==> !pressed || (zip == [] && stored)
  {
    AcceptedIffValid(zip);
    if pressed && zip != [] then
      if Rejected(zip) then InvalidZipError else Geocode(zip)
    else if stored then NoSearch
    else if zip == [] && pressed then EmptyZipWarning
    else NoSearch
  }
}
