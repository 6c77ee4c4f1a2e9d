/**
 * Where a message is posted: the port the admin typed (sanitised), the path
 * derived from the API version and the URL built from the page location
 * (components/ChatInterface.tsx).
 */
module Endpoint {
  import opened Wrappers
  import opened Text

  const MaxPortLength: nat := 5

  /** `newPort.replace(/\D/g, '').slice(0, 5)` */
  function SanitizePort(s: string): (r: string)
    ensures AllDigits(r)
    ensures |r| == if |Digits(s)| < MaxPortLength then |Digits(s)| else MaxPortLength
    ensures r == Digits(s)[..|r|]
  {
    var d := Digits(s);
    d[..if |d| < MaxPortLength then |d| else MaxPortLength]
  }

  /** Sanitising an already sanitised port changes nothing. */
  lemma SanitizeIdempotent(s: string)
    ensures SanitizePort(SanitizePort(s)) == SanitizePort(s)
  {
    DigitsOfDigits(SanitizePort(s));
  }

  /** A sanitised port is blank exactly when the input had no digit at all. */
  lemma SanitizedPortBlank(s: string)
    ensures IsBlank(SanitizePort(s)) <==> forall i :: 0 <= i < |s| ==> !IsDigit(s[i])
  {
    var r := SanitizePort(s);
    BlankIffAllSpace(r);
    DigitsEmptyIff(s);
    if r != [] {
      assert IsDigit(r[0]) && !IsSpace(r[0]);
    }
  }

  lemma SanitizeExample()
    ensures SanitizePort("12a3456xyz") == "12345"
  {
    assert Digits("12a3456xyz") == "123456";
  }

  /** `apiVersion.replace('_v', '')`: the first `_v` is taken out. */
  function ApiPath(version: string): (r: string)
    ensures !Contains(version, "_v") ==> r == version
  {
    RemoveFirst(version, "_v")
  }

  /** Every version named `chat_v<N>` maps to the path `chat<N>`. */
  lemma ApiPathOfVersion(n: string)
    ensures ApiPath("chat_v" + n) == "chat" + n
  {
    var v := "chat_v" + n;
    assert OccursAt(v, "_v", 4);
    var i := IndexOf(v, "_v").value;
    assert forall j :: 0 <= j < 4 ==> v[j] != '_';
    assert v[i..i + 2][0] == v[i];
    assert v[..4] + v[6..] == "chat" + n;
  }

  /** The page's `window.location`, which the model takes as a parameter. */
  datatype Location = Location(protocol: string, hostname: string, origin: string)

  /** A port is used exactly when `port && port.trim() !== ''` holds. */
  predicate UsesPort(port: string) {
    port != [] && !IsBlank(port)
  }

  /** The URL a message is posted to. */
  function ApiUrl(loc: Location, port: string, path: string): (r: string)
    ensures UsesPort(port) <==> !IsBlank(port)
    ensures UsesPort(port) ==> r == loc.protocol + "//" + loc.hostname + ":" + port + "/" + path
    ensures !UsesPort(port) ==> r == loc.origin + "/" + path
  {
    if UsesPort(port) then loc.protocol + "//" + loc.hostname + ":" + port + "/" + path
    else loc.origin + "/" + path
  }

  /** With a port in use the URL is the page's protocol and host, then `:port/path`. */
  lemma UrlWithPort(loc: Location, port: string, path: string)
    requires UsesPort(port)
    ensures ApiUrl(loc, port, path) == loc.protocol + "//" + loc.hostname + (":" + port + "/" + path)
  {
  }

  /** The default version `chat_v2` is posted to the path `chat2`. */
  lemma DefaultVersionPath()
    ensures ApiPath("chat_v2") == "chat2"
  {
    ApiPathOfVersion("2");
    assert "chat_v" + "2" == "chat_v2";
  }

  /** The port `9090` is used: it is non-empty and not blank. */
  lemma ExamplePortUsed()
    ensures UsesPort("9090")
  {
  }

  /** The suffix `:9090/chat2`, written as its four parts. */
  lemma ExamplePortSuffix()
    ensures ":" + "9090" + "/" + "chat2" == ":9090/chat2"
  {
  }

  /** The default version `chat_v2` without a port is posted to the page's origin. */
  lemma ApiUrlExampleNoPort(loc: Location)
    ensures ApiUrl(loc, "", ApiPath("chat_v2")) == loc.origin + "/chat2"
  {
    DefaultVersionPath();
  }

  /** The default version `chat_v2` with port 9090 is posted to that port of the page's host. */
  lemma ApiUrlExampleWithPort(loc: Location)
    ensures ApiUrl(loc, "9090", ApiPath("chat_v2")) == loc.protocol + "//" + loc.hostname + ":9090/chat2"
  {
    DefaultVersionPath();
    ExamplePortUsed();
    UrlWithPort(loc, "9090", "chat2");
    ExamplePortSuffix();
  }

  /** A port typed through the sanitiser is used exactly when it kept some digit. */
  lemma SanitizedPortUsed(s: string)
    ensures UsesPort(SanitizePort(s)) <==> SanitizePort(s) != []
  {
    var r := SanitizePort(s);
    BlankIffAllSpace(r);
    if r != [] {
      assert IsDigit(r[0]) && !IsSpace(r[0]);
    }
  }
}
