TestResult.DisplayName,TestResult.Outcome,TestResult.Duration,TestResult.ResourceCount,RandomSeed
DemandGrid.FindClosest (well-formedness),Failed,00:00:00.9807618,2095689,0
Miner.FindClosestFighter (well-formedness),Passed,00:00:00.2292093,97989,0
DemandGrid.FindClosestAgreesInGrid (well-formedness),Passed,00:00:00.0991768,100049,0
DemandGrid.FindClosestAsWritten (well-formedness),Passed,00:00:00.0982721,118783,0
DemandGrid.FindClosestAgreesInGrid (correctness),Passed,00:00:00.0801400,127114,0
