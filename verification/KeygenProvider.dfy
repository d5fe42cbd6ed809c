/**
 * The Keygen licensing-server provider of electron-updater
 * (packages/electron-updater/src/providers/KeygenProvider.ts). Its fields are set once
 * by the constructor; the channel is read from the updater on every use, so it is a
 * function of the updater's current channel.
 */
module KeygenProvider {
  import opened Support

  const DEFAULT_HOSTNAME := "api.keygen.sh"
  const DEFAULT_CHANNEL := "stable"
  const LATEST_VERSION_NOT_FOUND := "ERR_UPDATER_LATEST_VERSION_NOT_FOUND"

  /** KeygenOptions of the publish configuration; `platform` may be left undefined. */
  datatype KeygenOptions = KeygenOptions(
    account: string,
    product: string,
    host: Option<string>,
    channel: Option<string>,
    platform: Option<string>)

  /** The provider runtime options this model needs. */
  datatype RuntimeOptions = RuntimeOptions(isUseMultipleRangeRequest: bool, platform: string)

  datatype Provider = Provider(configuration: KeygenOptions, runtime: RuntimeOptions, baseUrl: string)
  {
    /** Whether the differential downloader may send several ranges in one request. */
    function IsUseMultipleRangeRequest(): bool {
      runtime.isUseMultipleRangeRequest
    }
  }

  /** The request getLatestVersion sends: the channel it asks for and its headers. */
  datatype ChannelRequest = ChannelRequest(channel: string, headers: seq<(string, string)>)

  /**
   * The constructor: the runtime options are copied with multiple range requests turned
   * off, and the base URL is built from the host (default api.keygen.sh), account and product.
   */
  function NewProvider(configuration: KeygenOptions, runtime: RuntimeOptions): (p: Provider)
    ensures !p.IsUseMultipleRangeRequest()
    ensures p.runtime.platform == runtime.platform && p.configuration == configuration
    ensures configuration.host.None? || configuration.host == Some("") ==>
              StartsWith(p.baseUrl, "https://" + DEFAULT_HOSTNAME + "/")
    ensures configuration.host.Some? && configuration.host.value != "" ==>
              StartsWith(p.baseUrl, "https://" + configuration.host.value + "/")
    ensures EndsWith(p.baseUrl, "v1/accounts/" + configuration.account + "/artifacts?product=" + configuration.product)
    ensures p.baseUrl == "https://" + OrElse(configuration.host, DEFAULT_HOSTNAME) + "/v1/accounts/" + configuration.account +
                         "/artifacts?product=" + configuration.product
  {
    var head := "https://" + OrElse(configuration.host, DEFAULT_HOSTNAME) + "/";
    var tail := "v1/accounts/" + configuration.account + "/artifacts?product=" + configuration.product;
    var url := head + tail;
    assert url[..|head|] == head;
    assert url[|url| - |tail|..] == tail;
    assert url == "https://" + OrElse(configuration.host, DEFAULT_HOSTNAME) + "/v1/accounts/" + configuration.account +
                  "/artifacts?product=" + configuration.product;
    Provider(configuration, runtime.(isUseMultipleRangeRequest := false), url)
  }

  /** The `channel` getter: the updater's channel, else the configured one, else "stable"; "" falls through. */
  function Channel(p: Provider, updaterChannel: Option<string>): (c: string)
    ensures c != ""
    ensures updaterChannel.Some? && updaterChannel.value != "" ==> c == updaterChannel.value
    ensures (updaterChannel.None? || updaterChannel.value == "") && p.configuration.channel.Some? && p.configuration.channel.value != "" ==>
              c == p.configuration.channel.value
    ensures (updaterChannel.None? || updaterChannel.value == "") && (p.configuration.channel.None? || p.configuration.channel.value == "") ==>
              c == DEFAULT_CHANNEL
  {
    OrElse(updaterChannel, OrElse(p.configuration.channel, DEFAULT_CHANNEL))
  }

  /** Template-literal rendering of an optional value: undefined prints as "undefined". */
  function Show(v: Option<string>): string {
    if v.Some? then v.value else "undefined"
  }

  /** `toString()`: account, product, configured platform and the resolved channel. */
  function ToString(p: Provider, updaterChannel: Option<string>): (s: string)
    ensures StartsWith(s, "Keygen (account: " + p.configuration.account + ", product: " + p.configuration.product)
    ensures EndsWith(s, ", channel: " + Channel(p, updaterChannel) + ")")
    ensures s == "Keygen (account: " + p.configuration.account + ", product: " + p.configuration.product +
                 ", platform: " + Show(p.configuration.platform) + ", channel: " + Channel(p, updaterChannel) + ")"
  {
    var head := "Keygen (account: " + p.configuration.account + ", product: " + p.configuration.product;
    var tail := ", channel: " + Channel(p, updaterChannel) + ")";
    var s := head + ", platform: " + Show(p.configuration.platform) + tail;
    assert s == head + (", platform: " + Show(p.configuration.platform) + tail);
    assert s == (head + ", platform: " + Show(p.configuration.platform)) + tail;
    s
  }

  /** What getLatestVersion asks for: the resolved channel, as a JSON:API request of Keygen API 1.1. */
  function LatestVersionRequest(p: Provider, updaterChannel: Option<string>): (r: ChannelRequest)
    ensures r.channel == Channel(p, updaterChannel)
    ensures ("Keygen-Version", "1.1") in r.headers && ("Accept", "application/vnd.api+json") in r.headers
  {
    ChannelRequest(Channel(p, updaterChannel), [("Accept", "application/vnd.api+json"), ("Keygen-Version", "1.1")])
  }

  /**
   * getLatestVersion, given what fetching and parsing the channel file produced: any
   * failure of either step is rethrown with code ERR_UPDATER_LATEST_VERSION_NOT_FOUND and a
   * message naming the provider and the cause; a parsed result is returned as it is.
   */
  function GetLatestVersion<T>(p: Provider, updaterChannel: Option<string>, fetched: Result<T, string>): (r: Result<T, CodedError>)
    ensures fetched.Success? ==> r == Success(fetched.value)
    ensures fetched.Failure? ==> r.Failure? && r.error.code == LATEST_VERSION_NOT_FOUND
    ensures fetched.Failure? ==> EndsWith(r.error.message, fetched.error)
    ensures fetched.Failure? ==> StartsWith(r.error.message, "Unable to find latest version on " + ToString(p, updaterChannel))
    ensures fetched.Failure? ==>
              r.error.message == "Unable to find latest version on " + ToString(p, updaterChannel) + ", please ensure release exists: " + fetched.error
  {
    match fetched
    case Success(info) => Success(info)
    case Failure(cause) =>
      var head := "Unable to find latest version on " + ToString(p, updaterChannel);
      var message := head + ", please ensure release exists: " + cause;
      assert message == head + (", please ensure release exists: " + cause);
      Failure(CodedError(message, LATEST_VERSION_NOT_FOUND))
  }
}
