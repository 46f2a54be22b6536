/** The application's constant configuration and the environment selection over it. */
module AppConfiguration {

  datatype AppInfo = AppInfo(
    name: string, version: string, description: string, author: string,
    email: string, phone: string, address: string)

  /** Settings that differ between the development and the production host */
  datatype EnvironmentSettings = EnvironmentSettings(apiUrl: string, debug: bool, logLevel: string)

  datatype EnvironmentTable = EnvironmentTable(development: EnvironmentSettings, production: EnvironmentSettings)

  datatype SecuritySettings = SecuritySettings(
    maxLoginAttempts: nat, lockoutDuration: nat, sessionTimeout: nat,
    passwordMinLength: nat, enableCSRF: bool, enableXSSProtection: bool)

  datatype FeatureFlags = FeatureFlags(
    enableAnalytics: bool, enableNotifications: bool, enableOfflineMode: bool, enablePWA: bool,
    enableContactForm: bool, enableAdminPanel: bool, enableBlog: bool, enableActivities: bool)

  datatype PerformanceSettings = PerformanceSettings(
    enableLazyLoading: bool, enableImageOptimization: bool, enableCaching: bool,
    cacheDuration: nat, maxImageSize: nat, enableCompression: bool)

  datatype UiSettings = UiSettings(
    theme: string, language: string, dateFormat: string, timeFormat: string,
    itemsPerPage: nat, enableAnimations: bool, animationDuration: nat)

  datatype ApiSettings = ApiSettings(timeout: nat, retryAttempts: nat, retryDelay: nat, enableCaching: bool)

  datatype StorageSettings = StorageSettings(
    prefix: string, enableCompression: bool, maxStorageSize: nat, enableBackup: bool)

  datatype NotificationSettings = NotificationSettings(
    enablePush: bool, enableEmail: bool, enableSMS: bool, defaultDuration: nat)

  datatype AnalyticsSettings = AnalyticsSettings(
    enableGoogleAnalytics: bool, enableCustomAnalytics: bool, trackUserInteractions: bool,
    trackPerformance: bool, anonymizeIP: bool)

  datatype ErrorHandlingSettings = ErrorHandlingSettings(
    enableGlobalErrorHandler: bool, enableErrorReporting: bool, enableUserFeedback: bool,
    maxErrorReports: nat)

  datatype DevelopmentSettings = DevelopmentSettings(
    enableHotReload: bool, enableSourceMaps: bool, enableDebugTools: bool, mockData: bool)

  /** The constant object, with both environments in it */
  datatype StaticConfig = StaticConfig(
    app: AppInfo,
    environment: EnvironmentTable,
    security: SecuritySettings,
    features: FeatureFlags,
    performance: PerformanceSettings,
    ui: UiSettings,
    api: ApiSettings,
    storage: StorageSettings,
    notifications: NotificationSettings,
    analytics: AnalyticsSettings,
    errorHandling: ErrorHandlingSettings,
    development: DevelopmentSettings)

  /** What getConfig returns: the environment table replaced by the selected entry */
  datatype Config = Config(
    app: AppInfo,
    environment: EnvironmentSettings,
    security: SecuritySettings,
    features: FeatureFlags,
    performance: PerformanceSettings,
    ui: UiSettings,
    api: ApiSettings,
    storage: StorageSettings,
    notifications: NotificationSettings,
    analytics: AnalyticsSettings,
    errorHandling: ErrorHandlingSettings,
    development: DevelopmentSettings,
    currentEnvironment: string)

  const AppConfig: StaticConfig := StaticConfig(
    AppInfo(
      "Renkli Dünya Anaokulu", "1.0.0", "Modern, responsive anaokulu web sitesi",
      "Renkli Dünya Anaokulu", "info@renklidunya.com", "+90 (212) 555 0123",
      "Örnek Mahallesi, Çocuk Sokak No:123, İstanbul, Türkiye"),
    EnvironmentTable(
      EnvironmentSettings("http://localhost:3000", true, "debug"),
      EnvironmentSettings("https://renklidunya.com", false, "error")),
    SecuritySettings(5, 15 * 60 * 1000, 30 * 60 * 1000, 6, true, true),
    FeatureFlags(true, true, true, true, true, true, true, true),
    PerformanceSettings(true, true, true, 24 * 60 * 60 * 1000, 5 * 1024 * 1024, true),
    UiSettings("modern", "tr", "DD/MM/YYYY", "HH:mm", 10, true, 300),
    ApiSettings(10000, 3, 1000, true),
    StorageSettings("renkli_dunya_", true, 10 * 1024 * 1024, true),
    NotificationSettings(true, true, false, 5000),
    AnalyticsSettings(false, true, true, true, true),
    ErrorHandlingSettings(true, true, true, 100),
    DevelopmentSettings(true, true, true, false))

  /** getCurrentEnvironment: the page's hostname is an input */
  function CurrentEnvironment(hostname: string): (env: string)
    ensures env == "development" <==> hostname == "localhost" || hostname == "127.0.0.1"
    ensures env == "production" <==> !(hostname == "localhost" || hostname == "127.0.0.1")
  {
    if hostname == "localhost" || hostname == "127.0.0.1" then "development" else "production"
  }

  /** getConfig: the spread of AppConfig with `environment` narrowed to the current one */
  function GetConfig(hostname: string): (c: Config)
    ensures c.currentEnvironment == CurrentEnvironment(hostname)
    ensures c.currentEnvironment == "development" ==> c.environment == AppConfig.environment.development
    ensures c.currentEnvironment == "production" ==> c.environment == AppConfig.environment.production
    ensures c.app == AppConfig.app && c.security == AppConfig.security && c.features == AppConfig.features
    ensures c.performance == AppConfig.performance && c.ui == AppConfig.ui && c.api == AppConfig.api
    ensures c.storage == AppConfig.storage && c.notifications == AppConfig.notifications
    ensures c.analytics == AppConfig.analytics && c.errorHandling == AppConfig.errorHandling
    ensures c.development == AppConfig.development
  {
    var env := CurrentEnvironment(hostname);
    Config(
      AppConfig.app,
      if env == "development" then AppConfig.environment.development else AppConfig.environment.production,
      AppConfig.security, AppConfig.features, AppConfig.performance, AppConfig.ui, AppConfig.api,
      AppConfig.storage, AppConfig.notifications, AppConfig.analytics, AppConfig.errorHandling,
      AppConfig.development, env)
  }

  /** The environment-dependent values the logger and the pages read */
  lemma EnvironmentValues(hostname: string)
    ensures GetConfig(hostname).environment.debug <==> hostname == "localhost" || hostname == "127.0.0.1"
    ensures GetConfig(hostname).environment.logLevel == (if GetConfig(hostname).environment.debug then "debug" else "error")
  {
  }

  /** The constants the security manager and the error reporter are configured with */
  lemma ConfiguredLimits(hostname: string)
    ensures GetConfig(hostname).security.maxLoginAttempts == 5
    ensures GetConfig(hostname).security.lockoutDuration == 900000
    ensures GetConfig(hostname).security.passwordMinLength == 6
    ensures GetConfig(hostname).errorHandling.maxErrorReports == 100
    ensures GetConfig(hostname).performance.cacheDuration == 86400000
  {
  }
}
