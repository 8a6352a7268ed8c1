TestResult.DisplayName,TestResult.Outcome,TestResult.Duration,TestResult.ResourceCount,RandomSeed
Sorting.InsertSorted (correctness),Passed,00:00:01.4286725,2231149,1
Sorting.InsertWithKey (correctness),Passed,00:00:00.4866867,480358,1
Sorting.Insert (well-formedness),Passed,00:00:00.2451856,77404,1
