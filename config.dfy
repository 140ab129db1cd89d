/** The settings the core reads from `config.py`, with their default values. */
module Config {

  import opened Wrappers

  const MaxRetries: nat := 5
  const RetryDelay: nat := 2
  const CacheTtl: int := 3600
  const CacheMaxSize: int := 10000
  const RateLimitRequests: nat := 30
  const RateLimitPeriod: nat := 60
  const UserRateLimit: nat := 10

  /** TERABOX_DOMAINS, in listed order. */
  const TeraboxDomains: seq<string> := [
    "terabox.com", "teraboxapp.com", "terabox.app", "terabox.fun", "terabox.co",
    "1024tera.com", "1024terabox.com",
    "4funbox.com", "mirrobox.com", "nephobox.com", "momerybox.com", "freeterabox.com", "boxterafile.com",
    "teraboxlink.com", "terasharelink.com", "teraboxshare.com", "terafileshare.com", "teradrive.link",
    "gcloud.live", "dubox.com", "digiboxx.com",
    "terabox.tech", "terabox.club", "terabox.me", "terabox.to", "teraboxdownload.com", "teraboxvideo.com",
    "tera-box.com", "terabox.cc", "tboxlink.com", "terabox.site", "terabox.online", "terabox.xyz",
    "terabox.jp", "terabox.in", "terabox.kr",
    "xhosting.link", "filecloud.me", "boxcloud.me"
  ]

  /** One entry of API_ENDPOINTS: only the two endpoint kinds the API strategy calls are kept. */
  datatype ApiConfig = ApiConfig(name: string, base: string, shortUrlInfo: Option<string>, list: Option<string>)

  const ApiEndpoints: seq<ApiConfig> := [
    ApiConfig("terabox_main", "https://www.terabox.com", Some("/api/shorturlinfo"), Some("/share/list")),
    ApiConfig("teraboxapp", "https://www.teraboxapp.com", Some("/api/shorturlinfo"), Some("/share/list")),
    ApiConfig("1024tera", "https://www.1024tera.com", Some("/api/shorturlinfo"), Some("/share/list")),
    ApiConfig("4funbox", "https://www.4funbox.com", Some("/api/shorturlinfo"), Some("/share/list")),
    ApiConfig("mirrobox", "https://www.mirrobox.com", Some("/api/shorturlinfo"), Some("/share/list"))
  ]

  /** One entry of THIRD_PARTY_APIS. */
  datatype ThirdPartyApi = ThirdPartyApi(name: string, url: string, httpMethod: string)

  const ThirdPartyApis: seq<ThirdPartyApi> := [
    ThirdPartyApi("terabox_dl_1", "https://teraboxdownloader.online/api/get-download", "POST"),
    ThirdPartyApi("terabox_dl_2", "https://teradownloader.com/api/extract", "POST")
  ]
}
