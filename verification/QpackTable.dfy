/** The static table of Appendix A of RFC 9204, the only table the QPACK codec has (src/qpack.c). */
module QpackTable {
  import opened Bytes
  import opened HpackTable
  import opened HpackEncoder

  const QSTATIC_N: nat := 99

  function Entry(i: nat): (string, string) {
    if i < 5 then Entry0(i)
    else if i < 10 then Entry5(i)
    else if i < 15 then Entry10(i)
    else if i < 20 then Entry15(i)
    else if i < 25 then Entry20(i)
    else if i < 30 then Entry25(i)
    else if i < 35 then Entry30(i)
    else if i < 40 then Entry35(i)
    else if i < 45 then Entry40(i)
    else if i < 50 then Entry45(i)
    else if i < 55 then Entry50(i)
    else if i < 60 then Entry55(i)
    else if i < 65 then Entry60(i)
    else if i < 70 then Entry65(i)
    else if i < 75 then Entry70(i)
    else if i < 80 then Entry75(i)
    else if i < 85 then Entry80(i)
    else if i < 90 then Entry85(i)
    else if i < 95 then Entry90(i)
    else Entry95(i)
  }

  function Entry0(i: nat): (string, string) {
    match i
    case 0 => (":authority", "") case 1 => (":path", "/") case 2 => ("age", "0")
    case 3 => ("content-disposition", "") case _ => ("content-length", "0")
  }

  function Entry5(i: nat): (string, string) {
    match i
    case 5 => ("cookie", "") case 6 => ("date", "") case 7 => ("etag", "") case 8 => ("if-modified-since", "")
    case _ => ("if-none-match", "")
  }

  function Entry10(i: nat): (string, string) {
    match i
    case 10 => ("last-modified", "") case 11 => ("link", "") case 12 => ("location", "")
    case 13 => ("referer", "") case _ => ("set-cookie", "")
  }

  function Entry15(i: nat): (string, string) {
    match i
    case 15 => (":method", "CONNECT") case 16 => (":method", "DELETE") case 17 => (":method", "GET")
    case 18 => (":method", "HEAD") case _ => (":method", "OPTIONS")
  }

  function Entry20(i: nat): (string, string) {
    match i
    case 20 => (":method", "POST") case 21 => (":method", "PUT") case 22 => (":scheme", "http")
    case 23 => (":scheme", "https") case _ => (":status", "103")
  }

  function Entry25(i: nat): (string, string) {
    match i
    case 25 => (":status", "200") case 26 => (":status", "304") case 27 => (":status", "404")
    case 28 => (":status", "503") case _ => ("accept", "*/*")
  }

  function Entry30(i: nat): (string, string) {
    match i
    case 30 => ("accept", "application/dns-message") case 31 => ("accept-encoding", "gzip, deflate, br")
    case 32 => ("accept-ranges", "bytes") case 33 => ("access-control-allow-headers", "cache-control")
    case _ => ("access-control-allow-headers", "content-type")
  }

  function Entry35(i: nat): (string, string) {
    match i
    case 35 => ("access-control-allow-origin", "*") case 36 => ("cache-control", "max-age=0")
    case 37 => ("cache-control", "max-age=2592000") case 38 => ("cache-control", "max-age=604800")
    case _ => ("cache-control", "no-cache")
  }

  function Entry40(i: nat): (string, string) {
    match i
    case 40 => ("cache-control", "no-store") case 41 => ("cache-control", "public, max-age=31536000")
    case 42 => ("content-encoding", "br") case 43 => ("content-encoding", "gzip")
    case _ => ("content-type", "application/dns-message")
  }

  function Entry45(i: nat): (string, string) {
    match i
    case 45 => ("content-type", "application/javascript") case 46 => ("content-type", "application/json")
    case 47 => ("content-type", "application/x-www-form-urlencoded") case 48 => ("content-type", "image/gif")
    case _ => ("content-type", "image/jpeg")
  }

  function Entry50(i: nat): (string, string) {
    match i
    case 50 => ("content-type", "image/png") case 51 => ("content-type", "text/css")
    case 52 => ("content-type", "text/html;charset=utf-8") case 53 => ("content-type", "text/plain")
    case _ => ("content-type", "text/plain;charset=utf-8")
  }

  function Entry55(i: nat): (string, string) {
    match i
    case 55 => ("range", "bytes=0-") case 56 => ("strict-transport-security", "max-age=31536000")
    case 57 => ("strict-transport-security", "max-age=31536000;includesubdomains")
    case 58 => ("strict-transport-security", "max-age=31536000;includesubdomains;preload")
    case _ => ("vary", "accept-encoding")
  }

  function Entry60(i: nat): (string, string) {
    match i
    case 60 => ("vary", "origin") case 61 => ("x-content-type-options", "nosniff")
    case 62 => ("x-xss-protection", "1; mode=block") case 63 => (":status", "100") case _ => (":status", "204")
  }

  function Entry65(i: nat): (string, string) {
    match i
    case 65 => (":status", "206") case 66 => (":status", "302") case 67 => (":status", "400")
    case 68 => (":status", "403") case _ => (":status", "421")
  }

  function Entry70(i: nat): (string, string) {
    match i
    case 70 => (":status", "425") case 71 => (":status", "500") case 72 => ("accept-language", "")
    case 73 => ("access-control-allow-credentials", "FALSE")
    case _ => ("access-control-allow-credentials", "TRUE")
  }

  function Entry75(i: nat): (string, string) {
    match i
    case 75 => ("access-control-allow-headers", "*") case 76 => ("access-control-allow-methods", "get")
    case 77 => ("access-control-allow-methods", "get, post, options")
    case 78 => ("access-control-allow-methods", "options")
    case _ => ("access-control-expose-headers", "content-length")
  }

  function Entry80(i: nat): (string, string) {
    match i
    case 80 => ("access-control-request-headers", "content-type")
    case 81 => ("access-control-request-method", "get") case 82 => ("access-control-request-method", "post")
    case 83 => ("alt-svc", "clear") case _ => ("authorization", "")
  }

  function Entry85(i: nat): (string, string) {
    match i
    case 85 => ("content-security-policy", "script-src 'none';object-src 'none';base-uri 'none'")
    case 86 => ("early-data", "1") case 87 => ("expect-ct", "") case 88 => ("forwarded", "")
    case _ => ("if-range", "")
  }

  function Entry90(i: nat): (string, string) {
    match i
    case 90 => ("origin", "") case 91 => ("purpose", "prefetch") case 92 => ("server", "")
    case 93 => ("timing-allow-origin", "*") case _ => ("upgrade-insecure-requests", "1")
  }

  function Entry95(i: nat): (string, string) {
    match i
    case 95 => ("user-agent", "") case 96 => ("x-forwarded-for", "") case 97 => ("x-frame-options", "deny")
    case _ => ("x-frame-options", "sameorigin")
  }

  function QStatic(i: nat): Field {
    Field(Ascii(Entry(i).0), Ascii(Entry(i).1))
  }

  // ------------------------------------------------------------ names are in lower case

  lemma Lower0(i: nat)
    requires 0 <= i < 5
    ensures LowerChars(Entry0(i).0)
  {
    match i
    case 0 => assert LowerChars(Entry0(0).0);
    case 1 => assert LowerChars(Entry0(1).0);
    case 2 => assert LowerChars(Entry0(2).0);
    case 3 => assert LowerChars(Entry0(3).0);
    case _ => assert LowerChars(Entry0(4).0);
  }

  lemma Lower5(i: nat)
    requires 5 <= i < 10
    ensures LowerChars(Entry5(i).0)
  {
    match i
    case 5 => assert LowerChars(Entry5(5).0);
    case 6 => assert LowerChars(Entry5(6).0);
    case 7 => assert LowerChars(Entry5(7).0);
    case 8 => assert LowerChars(Entry5(8).0);
    case _ => assert LowerChars(Entry5(9).0);
  }

  lemma Lower10(i: nat)
    requires 10 <= i < 15
    ensures LowerChars(Entry10(i).0)
  {
    match i
    case 10 => assert LowerChars(Entry10(10).0);
    case 11 => assert LowerChars(Entry10(11).0);
    case 12 => assert LowerChars(Entry10(12).0);
    case 13 => assert LowerChars(Entry10(13).0);
    case _ => assert LowerChars(Entry10(14).0);
  }

  lemma Lower15(i: nat)
    requires 15 <= i < 20
    ensures LowerChars(Entry15(i).0)
  {
    match i
    case 15 => assert LowerChars(Entry15(15).0);
    case 16 => assert LowerChars(Entry15(16).0);
    case 17 => assert LowerChars(Entry15(17).0);
    case 18 => assert LowerChars(Entry15(18).0);
    case _ => assert LowerChars(Entry15(19).0);
  }

  lemma Lower20(i: nat)
    requires 20 <= i < 25
    ensures LowerChars(Entry20(i).0)
  {
    match i
    case 20 => assert LowerChars(Entry20(20).0);
    case 21 => assert LowerChars(Entry20(21).0);
    case 22 => assert LowerChars(Entry20(22).0);
    case 23 => assert LowerChars(Entry20(23).0);
    case _ => assert LowerChars(Entry20(24).0);
  }

  lemma Lower25(i: nat)
    requires 25 <= i < 30
    ensures LowerChars(Entry25(i).0)
  {
    match i
    case 25 => assert LowerChars(Entry25(25).0);
    case 26 => assert LowerChars(Entry25(26).0);
    case 27 => assert LowerChars(Entry25(27).0);
    case 28 => assert LowerChars(Entry25(28).0);
    case _ => assert LowerChars(Entry25(29).0);
  }

  lemma Lower30(i: nat)
    requires 30 <= i < 35
    ensures LowerChars(Entry30(i).0)
  {
    match i
    case 30 => assert LowerChars(Entry30(30).0);
    case 31 => assert LowerChars(Entry30(31).0);
    case 32 => assert LowerChars(Entry30(32).0);
    case 33 => assert LowerChars(Entry30(33).0);
    case _ => assert LowerChars(Entry30(34).0);
  }

  lemma Lower35(i: nat)
    requires 35 <= i < 40
    ensures LowerChars(Entry35(i).0)
  {
    match i
    case 35 => assert LowerChars(Entry35(35).0);
    case 36 => assert LowerChars(Entry35(36).0);
    case 37 => assert LowerChars(Entry35(37).0);
    case 38 => assert LowerChars(Entry35(38).0);
    case _ => assert LowerChars(Entry35(39).0);
  }

  lemma Lower40(i: nat)
    requires 40 <= i < 45
    ensures LowerChars(Entry40(i).0)
  {
    match i
    case 40 => assert LowerChars(Entry40(40).0);
    case 41 => assert LowerChars(Entry40(41).0);
    case 42 => assert LowerChars(Entry40(42).0);
    case 43 => assert LowerChars(Entry40(43).0);
    case _ => assert LowerChars(Entry40(44).0);
  }

  lemma Lower45(i: nat)
    requires 45 <= i < 50
    ensures LowerChars(Entry45(i).0)
  {
    match i
    case 45 => assert LowerChars(Entry45(45).0);
    case 46 => assert LowerChars(Entry45(46).0);
    case 47 => assert LowerChars(Entry45(47).0);
    case 48 => assert LowerChars(Entry45(48).0);
    case _ => assert LowerChars(Entry45(49).0);
  }

  lemma Lower50(i: nat)
    requires 50 <= i < 55
    ensures LowerChars(Entry50(i).0)
  {
    match i
    case 50 => assert LowerChars(Entry50(50).0);
    case 51 => assert LowerChars(Entry50(51).0);
    case 52 => assert LowerChars(Entry50(52).0);
    case 53 => assert LowerChars(Entry50(53).0);
    case _ => assert LowerChars(Entry50(54).0);
  }

  lemma Lower55(i: nat)
    requires 55 <= i < 60
    ensures LowerChars(Entry55(i).0)
  {
    match i
    case 55 => assert LowerChars(Entry55(55).0);
    case 56 => assert LowerChars(Entry55(56).0);
    case 57 => assert LowerChars(Entry55(57).0);
    case 58 => assert LowerChars(Entry55(58).0);
    case _ => assert LowerChars(Entry55(59).0);
  }

  lemma Lower60(i: nat)
    requires 60 <= i < 65
    ensures LowerChars(Entry60(i).0)
  {
    match i
    case 60 => assert LowerChars(Entry60(60).0);
    case 61 => assert LowerChars(Entry60(61).0);
    case 62 => assert LowerChars(Entry60(62).0);
    case 63 => assert LowerChars(Entry60(63).0);
    case _ => assert LowerChars(Entry60(64).0);
  }

  lemma Lower65(i: nat)
    requires 65 <= i < 70
    ensures LowerChars(Entry65(i).0)
  {
    match i
    case 65 => assert LowerChars(Entry65(65).0);
    case 66 => assert LowerChars(Entry65(66).0);
    case 67 => assert LowerChars(Entry65(67).0);
    case 68 => assert LowerChars(Entry65(68).0);
    case _ => assert LowerChars(Entry65(69).0);
  }

  lemma Lower70(i: nat)
    requires 70 <= i < 75
    ensures LowerChars(Entry70(i).0)
  {
    match i
    case 70 => assert LowerChars(Entry70(70).0);
    case 71 => assert LowerChars(Entry70(71).0);
    case 72 => assert LowerChars(Entry70(72).0);
    case 73 => assert LowerChars(Entry70(73).0);
    case _ => assert LowerChars(Entry70(74).0);
  }

  lemma Lower75(i: nat)
    requires 75 <= i < 80
    ensures LowerChars(Entry75(i).0)
  {
    match i
    case 75 => assert LowerChars(Entry75(75).0);
    case 76 => assert LowerChars(Entry75(76).0);
    case 77 => assert LowerChars(Entry75(77).0);
    case 78 => assert LowerChars(Entry75(78).0);
    case _ => assert LowerChars(Entry75(79).0);
  }

  lemma Lower80(i: nat)
    requires 80 <= i < 85
    ensures LowerChars(Entry80(i).0)
  {
    match i
    case 80 => assert LowerChars(Entry80(80).0);
    case 81 => assert LowerChars(Entry80(81).0);
    case 82 => assert LowerChars(Entry80(82).0);
    case 83 => assert LowerChars(Entry80(83).0);
    case _ => assert LowerChars(Entry80(84).0);
  }

  lemma Lower85(i: nat)
    requires 85 <= i < 90
    ensures LowerChars(Entry85(i).0)
  {
    match i
    case 85 => assert LowerChars(Entry85(85).0);
    case 86 => assert LowerChars(Entry85(86).0);
    case 87 => assert LowerChars(Entry85(87).0);
    case 88 => assert LowerChars(Entry85(88).0);
    case _ => assert LowerChars(Entry85(89).0);
  }

  lemma Lower90(i: nat)
    requires 90 <= i < 95
    ensures LowerChars(Entry90(i).0)
  {
    match i
    case 90 => assert LowerChars(Entry90(90).0);
    case 91 => assert LowerChars(Entry90(91).0);
    case 92 => assert LowerChars(Entry90(92).0);
    case 93 => assert LowerChars(Entry90(93).0);
    case _ => assert LowerChars(Entry90(94).0);
  }

  lemma Lower95(i: nat)
    requires 95 <= i < 99
    ensures LowerChars(Entry95(i).0)
  {
    match i
    case 95 => assert LowerChars(Entry95(95).0);
    case 96 => assert LowerChars(Entry95(96).0);
    case 97 => assert LowerChars(Entry95(97).0);
    case _ => assert LowerChars(Entry95(98).0);
  }

  lemma StaticNamesAreLower(i: nat)
    requires i < QSTATIC_N
    ensures IsLower(QStatic(i).name)
  {
    hide IsLower, LowerChars;
    hide Entry0, Entry5, Entry10, Entry15, Entry20, Entry25, Entry30, Entry35, Entry40, Entry45, Entry50, Entry55,
         Entry60, Entry65, Entry70, Entry75, Entry80, Entry85, Entry90, Entry95;
    if
    case 0 <= i < 5 => Lower0(i); LowerLiteral(Entry0(i).0);
    case 5 <= i < 10 => Lower5(i); LowerLiteral(Entry5(i).0);
    case 10 <= i < 15 => Lower10(i); LowerLiteral(Entry10(i).0);
    case 15 <= i < 20 => Lower15(i); LowerLiteral(Entry15(i).0);
    case 20 <= i < 25 => Lower20(i); LowerLiteral(Entry20(i).0);
    case 25 <= i < 30 => Lower25(i); LowerLiteral(Entry25(i).0);
    case 30 <= i < 35 => Lower30(i); LowerLiteral(Entry30(i).0);
    case 35 <= i < 40 => Lower35(i); LowerLiteral(Entry35(i).0);
    case 40 <= i < 45 => Lower40(i); LowerLiteral(Entry40(i).0);
    case 45 <= i < 50 => Lower45(i); LowerLiteral(Entry45(i).0);
    case 50 <= i < 55 => Lower50(i); LowerLiteral(Entry50(i).0);
    case 55 <= i < 60 => Lower55(i); LowerLiteral(Entry55(i).0);
    case 60 <= i < 65 => Lower60(i); LowerLiteral(Entry60(i).0);
    case 65 <= i < 70 => Lower65(i); LowerLiteral(Entry65(i).0);
    case 70 <= i < 75 => Lower70(i); LowerLiteral(Entry70(i).0);
    case 75 <= i < 80 => Lower75(i); LowerLiteral(Entry75(i).0);
    case 80 <= i < 85 => Lower80(i); LowerLiteral(Entry80(i).0);
    case 85 <= i < 90 => Lower85(i); LowerLiteral(Entry85(i).0);
    case 90 <= i < 95 => Lower90(i); LowerLiteral(Entry90(i).0);
    case 95 <= i < 99 => Lower95(i); LowerLiteral(Entry95(i).0);
  }
}
