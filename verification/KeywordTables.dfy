/** The keyword tables of ReceiptCategorizationService. */
module KeywordTables {

  datatype Category =
    | Groceries | Transport | Entertainment | Restaurants | Shopping | Healthcare | Utilities | Subscriptions

  function Keywords(c: Category): seq<string> {
    match c
    case Groceries =>
      ["walmart", "costco", "aldi", "whole foods", "kroger", "safeway", "trader joe", "target", "grocery",
       "supermarket", "market", "kaufland", "lidl", "billa", "fantastico", "metro", "carrefour", "t market",
       "piccadilly", "marketplace", "магазин", "хранителен"]
    case Transport =>
      ["uber", "lyft", "bolt", "taxi", "cab", "shell", "chevron", "bp", "exxon", "mobil", "gas", "petrol",
       "lukoil", "omv", "eko", "rompetrol", "metro", "subway", "bus", "parking", "toll"]
    case Entertainment =>
      ["cinema", "movie", "netflix", "spotify", "amc", "theater", "theatre", "concert", "ticket",
       "entertainment", "game", "gaming", "steam", "кино", "театър"]
    case Restaurants =>
      ["mcdonalds", "mcdonald's", "starbucks", "restaurant", "cafe", "coffee", "burger king", "kfc",
       "subway", "pizza", "domino", "dunkin", "ресторант", "кафе", "заведение", "бар"]
    case Shopping =>
      ["amazon", "ebay", "target", "best buy", "mall", "clothing", "fashion", "nike", "adidas", "zara",
       "h&m", "store", "shop", "boutique", "magazine", "outlet"]
    case Healthcare =>
      ["pharmacy", "walgreens", "cvs", "hospital", "clinic", "medical", "doctor", "dentist", "health",
       "аптека", "болница", "лекар", "софарма", "pharmacy"]
    case Utilities =>
      ["electric", "electricity", "water", "gas", "utility", "bill", "евн", "топлофикация", "софийска вода"]
    case Subscriptions =>
      ["subscription", "netflix", "spotify", "amazon prime", "disney", "youtube premium", "apple music",
       "hbo", "абонамент"]
  }

  function ItemKeywords(c: Category): seq<string> {
    match c
    case Groceries =>
      ["bread", "milk", "cheese", "egg", "meat", "chicken", "fish", "vegetable", "fruit", "beer", "wine",
       "хляб", "мляко", "сирене"]
    case Restaurants =>
      ["burger", "pizza", "sandwich", "drink", "coffee", "tea", "meal", "menu", "бургер", "пица", "сандвич"]
    case Healthcare =>
      ["medicine", "pill", "tablet", "prescription", "лекарство", "медикамент"]
    case _ =>
      []
  }
}
