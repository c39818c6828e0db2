/** Values shared by every component of the weather SDK: results, the SDK's
    exception hierarchy as one error datatype, and the blank-string guard. */
module Common {

  datatype Option<+T> = None | Some(value: T)

  /** A value or the exception the Java code throws instead. */
  datatype Result<+T> = Ok(value: T) | Fail(error: Error)

  /** The exception classes of the SDK. Every one extends WeatherSdkException;
      `SdkError` stands for WeatherSdkException thrown as itself. */
  datatype Kind =
    | InvalidCity       // InvalidCityException
    | CityNotFound      // CityNotFoundException
    | InvalidApiKey     // InvalidApiKeyException
    | ApiKeyBlocked     // ApiKeyBlockedException
    | SdkShutdown       // SdkShutdownException
    | NetworkFailure    // NetworkException
    | UnexpectedApi     // UnexpectedApiException
    | SdkError          // WeatherSdkException itself

  datatype Error = Error(kind: Kind, message: string)

  /** The modes of ModeSDK. */
  datatype Mode = Polling | OnDemand

  /** Java's `s.trim().isEmpty()`: trim strips every character up to U+0020. */
  predicate IsBlank(s: string) {
    forall i :: 0 <= i < |s| ==> s[i] <= ' '
  }

  /** The message of every refusal of a blank API key. */
  const BlankKeyMessage := "API key cannot be null or empty"

  /** The message of every refusal of a non-positive polling interval. */
  const PositiveIntervalMessage := "Polling interval must be greater than 0 seconds"

  /** The InvalidCityException every city guard throws. */
  const InvalidCityError := Error(InvalidCity, "City name cannot be null or empty")

  predicate NoDuplicates<T(==)>(s: seq<T>) {
    forall i, j :: 0 <= i < j < |s| ==> s[i] != s[j]
  }
}
