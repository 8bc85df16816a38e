/** The browser's client of the OCR endpoint: which media types may be sent
    for extraction, the upload size limit, and how a failed request is
    turned into the message the user sees. */
module OcrApiService {
  import opened Base
  import Text

  /** 20 MB, the largest upload the endpoint accepts. */
  const MaxFileSize: nat := 20 * 1024 * 1024

  const SupportedTypes: seq<string> := ["image/jpeg", "image/jpg", "image/png", "application/pdf"]

  const TooLargeMessage := "File must be less than 20MB"
  const AuthFailedMessage := "Authentication failed. Check API credentials."
  const PayloadTooLargeMessage := "File too large. Maximum size is 20MB."
  const CannotConnectMessage :=
    "Cannot connect to OCR service. Make sure the backend server is running on http://localhost:3233"

  /** `isOCRSupported`: the lower-cased media type is on the allow-list. */
  predicate IsOCRSupported(fileType: string) {
    Text.ToLower(fileType) in SupportedTypes
  }

  /** Two strings are equal up to the case of ASCII letters, compared
      character by character. */
  predicate SameIgnoringCase(a: string, b: string) {
    |a| == |b| && forall i :: 0 <= i < |a| ==> Text.LowerChar(a[i]) == Text.LowerChar(b[i])
  }

  /** No entry of the allow-list contains an upper-case ASCII letter. */
  lemma AllowListIsLowerCase(s: string)
    requires s in SupportedTypes
    ensures Text.ToLower(s) == s
  {
    assert forall i | 0 <= i < |s| :: !('A' <= s[i] <= 'Z');
    assert Text.ToLower(s) == s;
  }

  /** The allow-list, stated without lower-casing: a media type is supported
      exactly when it equals one of the four entries up to letter case. */
  lemma {:induction false} SupportedIffSameIgnoringCase(fileType: string)
    ensures IsOCRSupported(fileType) <==> exists s :: s in SupportedTypes && SameIgnoringCase(fileType, s)
  {
    var l := Text.ToLower(fileType);
    if IsOCRSupported(fileType) {
      assert SameIgnoringCase(fileType, l) by {
        forall i | 0 <= i < |l| ensures Text.LowerChar(fileType[i]) == Text.LowerChar(l[i]) {
          assert Text.LowerChar(l[i]) == l[i];
        }
      }
    }
    if exists s :: s in SupportedTypes && SameIgnoringCase(fileType, s) {
      var s :| s in SupportedTypes && SameIgnoringCase(fileType, s);
      AllowListIsLowerCase(s);
      assert l == s by {
        assert |l| == |s|;
        forall i | 0 <= i < |s| ensures l[i] == s[i] {
          assert Text.LowerChar(s[i]) == Text.ToLower(s)[i];
        }
      }
    }
  }

  /** Upper-case spellings are accepted exactly when their lower-case
      spellings are. */
  lemma SupportIgnoresCase(fileType: string)
    ensures IsOCRSupported(fileType) <==> IsOCRSupported(Text.ToLower(fileType))
  {
    Text.ToLowerIdempotent(fileType);
  }

  /** The decision `extractTextFromImage` takes on a file of `size` bytes,
      given what the POST request to '/api/ocr' would produce (`response`:
      the `text` field of the reply, or what the request threw). An oversized
      file is rejected before any request is made; on a failed request, an
      `APIError` with status 401 or 413, or whose message mentions a network
      error, is replaced by a friendlier `APIError`; anything else is
      rethrown unchanged. */
  function ExtractTextFromImage(size: nat, response: Result<string, Thrown>): (r: Result<string, Thrown>)
    ensures size > MaxFileSize ==> r == Err(ApiError(TooLargeMessage, None))
    ensures size <= MaxFileSize && response.Ok? ==> r == response
    ensures size <= MaxFileSize && response.Err? && response.error.ApiError? ==>
      r == Err(match response.error.status
               case Some(401) => ApiError(AuthFailedMessage, None)
               case Some(413) => ApiError(PayloadTooLargeMessage, None)
               case _ =>
                 if Text.Contains(response.error.message, "Network error")
                 then ApiError(CannotConnectMessage, None)
                 else response.error)
    ensures size <= MaxFileSize && response.Err? && !response.error.ApiError? ==> r == response
  {
    if size > MaxFileSize then
      Err(ApiError(TooLargeMessage, None))
    else
      match response
      case Ok(text) => Ok(text)
      case Err(e) =>
        if e.ApiError? && e.status == Some(401) then Err(ApiError(AuthFailedMessage, None))
        else if e.ApiError? && e.status == Some(413) then Err(ApiError(PayloadTooLargeMessage, None))
        else if e.ApiError? && Text.Contains(e.message, "Network error") then Err(ApiError(CannotConnectMessage, None))
        else Err(e)
  }

  /** The size check is decided before the request: on an oversized file
      the outcome does not depend on what the request would have produced. */
  lemma SizeCheckPrecedesRequest(size: nat, a: Result<string, Thrown>, b: Result<string, Thrown>)
    requires size > MaxFileSize
    ensures ExtractTextFromImage(size, a) == ExtractTextFromImage(size, b)
  {
  }

  /** A 20 MB file is still accepted: the limit is inclusive. */
  lemma LimitIsInclusive(response: Result<string, Thrown>)
    ensures ExtractTextFromImage(MaxFileSize, response).Ok? <==> response.Ok?
  {
  }
}
