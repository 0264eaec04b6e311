/** The response to a get-download-authorization-by-file-name call. */
module Responses {

  /**
   * `GetDownloadUrlByFileNameResponse`: the bucket and file-name prefix echoed
   * by the service, the authorization token for downloads of files under that
   * prefix, and the download URL. It carries no behaviour of its own.
   */
  datatype GetDownloadUrlByFileNameResponse = GetDownloadUrlByFileNameResponse(
    bucketId: string,
    fileName: string,
    authorizationToken: string,
    downloadUrl: string)
}
