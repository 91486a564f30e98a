/** The image address of the résumé preview (client/src/components/CVPreview.jsx). */
module CvPreview {
  import opened Common
  import opened ResumeServer

  /** The image origin when `VITE_API_BASE_URL` is unset. The HTTP client
      reads a different variable, `VITE_API_URL`; the two origins agree only
      when both are unset or set alike. */
  const DefaultBase := "http://localhost:5000"

  /** `getImageUrl(imgPath)`: a stored upload is fetched from `VITE_API_BASE_URL`;
      anything else (a data URL just read from disk, an absolute address) is
      used as it is, and no path gives no address. */
  function ImageUrl(path: Field, envBase: Field): (u: string)
    ensures !Truthy(path) ==> u == ""
    ensures Truthy(path) && StartsWith(path.s, "/uploads") ==> u == OrElse(envBase, DefaultBase) + path.s
    ensures Truthy(path) && !StartsWith(path.s, "/uploads") ==> u == path.s
  {
    if !Truthy(path) then ""
    else if StartsWith(path.s, "/uploads") then OrElse(envBase, DefaultBase) + path.s
    else path.s
  }

  /** A path saved by the server for an upload is always served from
      `VITE_API_BASE_URL`, or from `http://localhost:5000` when it is unset. */
  lemma UploadedImageUrl(filename: string, envBase: Field)
    ensures ImageUrl(Str(UploadPath(filename)), envBase) == OrElse(envBase, DefaultBase) + UploadPath(filename)
    ensures !Truthy(envBase) ==> ImageUrl(Str(UploadPath(filename)), envBase) == DefaultBase + "/uploads/resumes/" + filename
  {
  }

  /** A data URL from the file picker is shown unchanged. */
  lemma DataUrlUnchanged(s: string, envBase: Field)
    requires StartsWith(s, "data:")
    ensures ImageUrl(Str(s), envBase) == s
  {
    assert s[0] == 'd';
  }

  /** The address is empty exactly when there is no path. */
  lemma ImageUrlEmptyIff(path: Field, envBase: Field)
    ensures ImageUrl(path, envBase) == "" <==> !Truthy(path)
  {
  }
}
