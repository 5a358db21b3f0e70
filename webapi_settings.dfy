/** The web client's settings module is not part of this model: its
    constants are gathered in one value that the operations take as a
    parameter, so every property holds whatever they are. */
module WebApiSettings {

  datatype Settings = Settings(
    communityBase: string,            // URL_COMMUNITY_BASE
    storeApiBase: string,             // URL_STORE_API_BASE
    appidSteam: string,               // APPID_STEAM
    appidCards: string,               // APPID_CARDS
    appCategoryCards: int,            // APP_CATEGORY_CARDS
    currencyRub: string,              // CURRENCY_RUB, the default currency
    currencies: map<string, string>)  // CURRENCIES
}
