TestResult.DisplayName,TestResult.Outcome,TestResult.Duration,TestResult.ResourceCount,RandomSeed
Directions.DigitsRoundTrip (correctness),Passed,00:00:00.1600554,89923,0
Directions.DigitsRoundTrip (well-formedness),Passed,00:00:00.1440653,16350,0
