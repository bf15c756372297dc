/**
 * The records the backend stores and exchanges. Field names follow the
 * handlers, which use several fields the shared model file does not declare
 * (the user's Type, the order's customer-facing OrderID and redemption
 * fields, the case's enabled-question flags, the two tasting-note answers,
 * and the catalog item). Timestamps are integer nanoseconds since the Unix
 * epoch; float64 accuracies are exact reals.
 */
module Models {

  datatype User = User(
    ID: string,
    Name: string,
    Email: string,
    Picture: string,
    Level: string,
    Type: string,
    Score: int,
    Points: int,
    CasesAttempted: int,
    CasesSolved: int,
    CasesCount: nat,
    Accuracy: real,
    Badges: seq<string>,
    CreatedAt: int,
    UpdatedAt: int)

  datatype CoffeeItem = CoffeeItem(
    ID: string,
    Name: string,
    Region: string,
    Variety: string,
    Process: string,
    RoastLevel: string,
    TastingNotes: string,
    Farm: string,
    Altitude: int)

  /** Which questions a case asks: five per coffee and two bonus questions. */
  datatype EnabledQuestions = EnabledQuestions(
    Region: bool,
    Variety: bool,
    Process: bool,
    TasteNote1: bool,
    TasteNote2: bool,
    FavoriteCoffee: bool,
    BrewingMethod: bool)

  datatype CoffeeCase = CoffeeCase(
    ID: string,
    Name: string,
    Description: string,
    Price: int,
    Coffees: seq<CoffeeItem>,
    EnabledQuestions: EnabledQuestions,
    CreatedAt: int,
    UpdatedAt: int,
    IsActive: bool)

  datatype CoffeeAnswer = CoffeeAnswer(
    CoffeeID: string,
    Region: string,
    Variety: string,
    Process: string,
    TasteNote1: string,
    TasteNote2: string)

  datatype Submission = Submission(
    ID: string,
    UserID: string,
    CaseID: string,
    DetectiveName: string,
    OrderID: string,
    CoffeeAnswers: seq<CoffeeAnswer>,
    FavoriteCoffee: string,
    BrewingMethod: string,
    Score: int,
    Accuracy: real,
    SubmittedAt: int)

  /** ID is the Firestore document ID; OrderID is the 6-character code customers type in. */
  datatype Order = Order(
    ID: string,
    OrderID: string,
    UserID: string,
    CaseID: string,
    CustomerName: string,
    ContactInfo: string,
    Status: string,
    TotalAmount: int,
    IsSubmissionUsed: bool,
    SubmissionUsedBy: string,
    SubmissionUsedAt: int,
    CreatedAt: int,
    UpdatedAt: int)

  datatype CatalogItem = CatalogItem(
    ID: string,
    Category: string,
    Value: string,
    Label: string,
    IsActive: bool,
    DisplayOrder: int,
    CreatedAt: int)

  datatype LeaderboardEntry = LeaderboardEntry(
    UserID: string,
    DetectiveName: string,
    Points: int,
    Accuracy: real,
    CasesCount: int,
    Badges: seq<string>,
    Rank: int)

  /** HTTP status codes the handlers answer with. */
  const StatusOK := 200
  const StatusCreated := 201
  const StatusTemporaryRedirect := 307
  const StatusBadRequest := 400
  const StatusUnauthorized := 401
  const StatusForbidden := 403
  const StatusNotFound := 404
  const StatusInternalServerError := 500
}
