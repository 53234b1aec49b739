/**
  The static tables as Appendix A of RFC 7541 and Appendix A of RFC 9204 print them, index by index.
 */
module StaticTables {
  import HpackTable
  import QpackTable

  /** RFC 7541, indices 1 to 16. */
  lemma AppendixA1()
    ensures HpackTable.StaticEntry(1) == (":authority", "")
    ensures HpackTable.StaticEntry(2) == (":method", "GET")
    ensures HpackTable.StaticEntry(3) == (":method", "POST")
    ensures HpackTable.StaticEntry(4) == (":path", "/")
    ensures HpackTable.StaticEntry(5) == (":path", "/index.html")
    ensures HpackTable.StaticEntry(6) == (":scheme", "http")
    ensures HpackTable.StaticEntry(7) == (":scheme", "https")
    ensures HpackTable.StaticEntry(8) == (":status", "200")
    ensures HpackTable.StaticEntry(9) == (":status", "204")
    ensures HpackTable.StaticEntry(10) == (":status", "206")
    ensures HpackTable.StaticEntry(11) == (":status", "304")
    ensures HpackTable.StaticEntry(12) == (":status", "400")
    ensures HpackTable.StaticEntry(13) == (":status", "404")
    ensures HpackTable.StaticEntry(14) == (":status", "500")
    ensures HpackTable.StaticEntry(15) == ("accept-charset", "")
    ensures HpackTable.StaticEntry(16) == ("accept-encoding", "gzip, deflate")
  {
  }

  /** RFC 7541, indices 17 to 32. */
  lemma AppendixA17()
    ensures HpackTable.StaticEntry(17) == ("accept-language", "")
    ensures HpackTable.StaticEntry(18) == ("accept-ranges", "")
    ensures HpackTable.StaticEntry(19) == ("accept", "")
    ensures HpackTable.StaticEntry(20) == ("access-control-allow-origin", "")
    ensures HpackTable.StaticEntry(21) == ("age", "")
    ensures HpackTable.StaticEntry(22) == ("allow", "")
    ensures HpackTable.StaticEntry(23) == ("authorization", "")
    ensures HpackTable.StaticEntry(24) == ("cache-control", "")
    ensures HpackTable.StaticEntry(25) == ("content-disposition", "")
    ensures HpackTable.StaticEntry(26) == ("content-encoding", "")
    ensures HpackTable.StaticEntry(27) == ("content-language", "")
    ensures HpackTable.StaticEntry(28) == ("content-length", "")
    ensures HpackTable.StaticEntry(29) == ("content-location", "")
    ensures HpackTable.StaticEntry(30) == ("content-range", "")
    ensures HpackTable.StaticEntry(31) == ("content-type", "")
    ensures HpackTable.StaticEntry(32) == ("cookie", "")
  {
  }

  /** RFC 7541, indices 33 to 48. */
  lemma AppendixA33()
    ensures HpackTable.StaticEntry(33) == ("date", "")
    ensures HpackTable.StaticEntry(34) == ("etag", "")
    ensures HpackTable.StaticEntry(35) == ("expect", "")
    ensures HpackTable.StaticEntry(36) == ("expires", "")
    ensures HpackTable.StaticEntry(37) == ("from", "")
    ensures HpackTable.StaticEntry(38) == ("host", "")
    ensures HpackTable.StaticEntry(39) == ("if-match", "")
    ensures HpackTable.StaticEntry(40) == ("if-modified-since", "")
    ensures HpackTable.StaticEntry(41) == ("if-none-match", "")
    ensures HpackTable.StaticEntry(42) == ("if-range", "")
    ensures HpackTable.StaticEntry(43) == ("if-unmodified-since", "")
    ensures HpackTable.StaticEntry(44) == ("last-modified", "")
    ensures HpackTable.StaticEntry(45) == ("link", "")
    ensures HpackTable.StaticEntry(46) == ("location", "")
    ensures HpackTable.StaticEntry(47) == ("max-forwards", "")
    ensures HpackTable.StaticEntry(48) == ("proxy-authenticate", "")
  {
  }

  /** RFC 7541, indices 49 to 61. */
  lemma AppendixA49()
    ensures HpackTable.StaticEntry(49) == ("proxy-authorization", "")
    ensures HpackTable.StaticEntry(50) == ("range", "")
    ensures HpackTable.StaticEntry(51) == ("referer", "")
    ensures HpackTable.StaticEntry(52) == ("refresh", "")
    ensures HpackTable.StaticEntry(53) == ("retry-after", "")
    ensures HpackTable.StaticEntry(54) == ("server", "")
    ensures HpackTable.StaticEntry(55) == ("set-cookie", "")
    ensures HpackTable.StaticEntry(56) == ("strict-transport-security", "")
    ensures HpackTable.StaticEntry(57) == ("transfer-encoding", "")
    ensures HpackTable.StaticEntry(58) == ("user-agent", "")
    ensures HpackTable.StaticEntry(59) == ("vary", "")
    ensures HpackTable.StaticEntry(60) == ("via", "")
    ensures HpackTable.StaticEntry(61) == ("www-authenticate", "")
  {
  }

  /** RFC 9204, indices 0 to 19. */
  lemma QpackAppendixA0()
    ensures QpackTable.Entry(0) == (":authority", "")
    ensures QpackTable.Entry(1) == (":path", "/")
    ensures QpackTable.Entry(2) == ("age", "0")
    ensures QpackTable.Entry(3) == ("content-disposition", "")
    ensures QpackTable.Entry(4) == ("content-length", "0")
    ensures QpackTable.Entry(5) == ("cookie", "")
    ensures QpackTable.Entry(6) == ("date", "")
    ensures QpackTable.Entry(7) == ("etag", "")
    ensures QpackTable.Entry(8) == ("if-modified-since", "")
    ensures QpackTable.Entry(9) == ("if-none-match", "")
    ensures QpackTable.Entry(10) == ("last-modified", "")
    ensures QpackTable.Entry(11) == ("link", "")
    ensures QpackTable.Entry(12) == ("location", "")
    ensures QpackTable.Entry(13) == ("referer", "")
    ensures QpackTable.Entry(14) == ("set-cookie", "")
    ensures QpackTable.Entry(15) == (":method", "CONNECT")
    ensures QpackTable.Entry(16) == (":method", "DELETE")
    ensures QpackTable.Entry(17) == (":method", "GET")
    ensures QpackTable.Entry(18) == (":method", "HEAD")
    ensures QpackTable.Entry(19) == (":method", "OPTIONS")
  {
  }

  /** RFC 9204, indices 20 to 39. */
  lemma QpackAppendixA20()
    ensures QpackTable.Entry(20) == (":method", "POST")
    ensures QpackTable.Entry(21) == (":method", "PUT")
    ensures QpackTable.Entry(22) == (":scheme", "http")
    ensures QpackTable.Entry(23) == (":scheme", "https")
    ensures QpackTable.Entry(24) == (":status", "103")
    ensures QpackTable.Entry(25) == (":status", "200")
    ensures QpackTable.Entry(26) == (":status", "304")
    ensures QpackTable.Entry(27) == (":status", "404")
    ensures QpackTable.Entry(28) == (":status", "503")
    ensures QpackTable.Entry(29) == ("accept", "*/*")
    ensures QpackTable.Entry(30) == ("accept", "application/dns-message")
    ensures QpackTable.Entry(31) == ("accept-encoding", "gzip, deflate, br")
    ensures QpackTable.Entry(32) == ("accept-ranges", "bytes")
    ensures QpackTable.Entry(33) == ("access-control-allow-headers", "cache-control")
    ensures QpackTable.Entry(34) == ("access-control-allow-headers", "content-type")
    ensures QpackTable.Entry(35) == ("access-control-allow-origin", "*")
    ensures QpackTable.Entry(36) == ("cache-control", "max-age=0")
    ensures QpackTable.Entry(37) == ("cache-control", "max-age=2592000")
    ensures QpackTable.Entry(38) == ("cache-control", "max-age=604800")
    ensures QpackTable.Entry(39) == ("cache-control", "no-cache")
  {
  }

  /** RFC 9204, indices 40 to 59. */
  lemma QpackAppendixA40()
    ensures QpackTable.Entry(40) == ("cache-control", "no-store")
    ensures QpackTable.Entry(41) == ("cache-control", "public, max-age=31536000")
    ensures QpackTable.Entry(42) == ("content-encoding", "br")
    ensures QpackTable.Entry(43) == ("content-encoding", "gzip")
    ensures QpackTable.Entry(44) == ("content-type", "application/dns-message")
    ensures QpackTable.Entry(45) == ("content-type", "application/javascript")
    ensures QpackTable.Entry(46) == ("content-type", "application/json")
    ensures QpackTable.Entry(47) == ("content-type", "application/x-www-form-urlencoded")
    ensures QpackTable.Entry(48) == ("content-type", "image/gif")
    ensures QpackTable.Entry(49) == ("content-type", "image/jpeg")
    ensures QpackTable.Entry(50) == ("content-type", "image/png")
    ensures QpackTable.Entry(51) == ("content-type", "text/css")
    ensures QpackTable.Entry(52) == ("content-type", "text/html;charset=utf-8")
    ensures QpackTable.Entry(53) == ("content-type", "text/plain")
    ensures QpackTable.Entry(54) == ("content-type", "text/plain;charset=utf-8")
    ensures QpackTable.Entry(55) == ("range", "bytes=0-")
    ensures QpackTable.Entry(56) == ("strict-transport-security", "max-age=31536000")
    ensures QpackTable.Entry(57) == ("strict-transport-security", "max-age=31536000;includesubdomains")
    ensures QpackTable.Entry(58) == ("strict-transport-security", "max-age=31536000;includesubdomains;preload")
    ensures QpackTable.Entry(59) == ("vary", "accept-encoding")
  {
  }

  /** RFC 9204, indices 60 to 79. */
  lemma QpackAppendixA60()
    ensures QpackTable.Entry(60) == ("vary", "origin")
    ensures QpackTable.Entry(61) == ("x-content-type-options", "nosniff")
    ensures QpackTable.Entry(62) == ("x-xss-protection", "1; mode=block")
    ensures QpackTable.Entry(63) == (":status", "100")
    ensures QpackTable.Entry(64) == (":status", "204")
    ensures QpackTable.Entry(65) == (":status", "206")
    ensures QpackTable.Entry(66) == (":status", "302")
    ensures QpackTable.Entry(67) == (":status", "400")
    ensures QpackTable.Entry(68) == (":status", "403")
    ensures QpackTable.Entry(69) == (":status", "421")
    ensures QpackTable.Entry(70) == (":status", "425")
    ensures QpackTable.Entry(71) == (":status", "500")
    ensures QpackTable.Entry(72) == ("accept-language", "")
    ensures QpackTable.Entry(73) == ("access-control-allow-credentials", "FALSE")
    ensures QpackTable.Entry(74) == ("access-control-allow-credentials", "TRUE")
    ensures QpackTable.Entry(75) == ("access-control-allow-headers", "*")
    ensures QpackTable.Entry(76) == ("access-control-allow-methods", "get")
    ensures QpackTable.Entry(77) == ("access-control-allow-methods", "get, post, options")
    ensures QpackTable.Entry(78) == ("access-control-allow-methods", "options")
    ensures QpackTable.Entry(79) == ("access-control-expose-headers", "content-length")
  {
  }

  /** RFC 9204, indices 80 to 98. */
  lemma QpackAppendixA80()
    ensures QpackTable.Entry(80) == ("access-control-request-headers", "content-type")
    ensures QpackTable.Entry(81) == ("access-control-request-method", "get")
    ensures QpackTable.Entry(82) == ("access-control-request-method", "post")
    ensures QpackTable.Entry(83) == ("alt-svc", "clear")
    ensures QpackTable.Entry(84) == ("authorization", "")
    ensures QpackTable.Entry(85) == ("content-security-policy", "script-src 'none';object-src 'none';base-uri 'none'")
    ensures QpackTable.Entry(86) == ("early-data", "1")
    ensures QpackTable.Entry(87) == ("expect-ct", "")
    ensures QpackTable.Entry(88) == ("forwarded", "")
    ensures QpackTable.Entry(89) == ("if-range", "")
    ensures QpackTable.Entry(90) == ("origin", "")
    ensures QpackTable.Entry(91) == ("purpose", "prefetch")
    ensures QpackTable.Entry(92) == ("server", "")
    ensures QpackTable.Entry(93) == ("timing-allow-origin", "*")
    ensures QpackTable.Entry(94) == ("upgrade-insecure-requests", "1")
    ensures QpackTable.Entry(95) == ("user-agent", "")
    ensures QpackTable.Entry(96) == ("x-forwarded-for", "")
    ensures QpackTable.Entry(97) == ("x-frame-options", "deny")
    ensures QpackTable.Entry(98) == ("x-frame-options", "sameorigin")
  {
  }
}
