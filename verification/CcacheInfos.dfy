/** The facts read_ccache reports; the text type is bytes in the codec and strings in the handlers. */
module CcacheInfos {
  import opened Options

  datatype CcacheInfo<T> = CcacheInfo(principal: T, realm: T, expiresAt: int, renewUntil: Option<int>)

  /**
   How read_ccache ends on a file: with the facts, with a CcacheParseError, or, since only
   libkrb5's own errors are caught there, with the decoding error of a realm that is not UTF-8.
   */
  datatype Parse<T> = Readable(info: CcacheInfo<T>) | Unreadable | Undecodable
}
